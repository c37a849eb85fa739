# crm start-up, configuration and routing, in Dafny

A model of the core of the `crm` web application (Go, Fiber, viper, logrus)
as it stands at start-up. The model covers:

- how the configuration singleton is loaded: the defaults table, `prepare`'s
  choice of configuration file, `loadConfig`'s steps and their order, viper's
  precedence of environment over file over default, and `GetConfig`'s cache;
- how `util.Getenv` reads the environment;
- how `runApp` computes the bind address, installs the middleware stack and
  the routes, and provisions a TLS certificate through `initializeCert` and
  `generateSelfSignedCert`;
- the CSRF middleware's settings and its error handler;
- the route table `initRouter` registers, and the chain of handlers Fiber
  offers a request to;
- the logger setup of `initLogging`, including logrus's level parsing;
- the index page handler.

Every operation is a pure function. The world it touches is a parameter:
- the environment is a map;
- the file system is a record of files and failing paths;
- the cryptography, the clock, the home-directory lookup, the file read,
  viper's decoder and `tls.Listen` are values or functions passed in.

Modules:
- `Outcomes`: `Option`, `Result`, and `Exit`, where `Exit` is a value, a
  `log.Fatal` or a `panic`.
- `Strings`, `FilePath`, `Strconv`: the pieces of the Go standard library the
  core relies on.
- `Env`: util/env.go.
- `Config`: config/config.go.
- `Certificates` and `App`: app.go.
- `Router` and `Http`: router.go.
- `Logging`: log.go.
- `Handlers`: handlers/handlers.go.

Three facts about the code are easy to misread:
- `generateSelfSignedCert` reads the clock twice. `NotAfter` is 180 days
  after the second reading, so the certificate is valid for 180 days plus
  the time between the readings (`Certificates.ValidityWindow`).
- The key file holds an "RSA PRIVATE KEY" block, which is PKCS #1.
- A configuration file named in `CRM_CONFIG` is accepted when its base name
  ends in "yml", "yaml", "json" or "toml", with or without a dot before it
  (`Config.DotlessName`).

## Model

| member | source | states |
|---|---|---|
| `Outcomes.Lookup` | util/env.go:8 | a variable is found exactly when it is set, even to "", and then its value is returned |
| `Env.OsGetenv` | config/config.go:70 | `os.Getenv` returns the value of a set variable and "" for an unset one |
| `Env.Getenv` | util/env.go:7-12 | the value when the variable is set, the fallback otherwise |
| `Env.GetenvKeepsEmptyValue` | util/env.go:8-10 | a variable set to "" gives "", never the fallback |
| `Env.GetenvIsValueOrFallback` | util/env.go:7-12 | the result is the value or the fallback; the fallback is returned for every fallback given exactly when the variable is unset |
| `Env.GetenvEmptyFallbackIsOsGetenv` | util/env.go:7-12 | with the fallback "" the helper agrees with `os.Getenv` |
| `Strings.SplitFirst` | config/config.go:82 | splitting at a first separator peels off the piece before it |
| `Strings.JoinSplit` | config/config.go:82-83 | joining the pieces of `strings.Split` with the same separator gives the string back |
| `Strings.SplitPiecesLackSeparator` | config/config.go:82 | no piece of a split holds the separator |
| `Strings.SplitSingle` | config/config.go:82 | a split gives one piece exactly when the separator is absent, and that piece is the whole string |
| `Strings.JoinLast` | config/config.go:83-84 | the join of all pieces is the join of all but the last, the separator, and the last |
| `FilePath.Base` | config/config.go:79 | `filepath.Base` is never empty, has no '/' unless it is "/", and is "." for the empty path |
| `FilePath.BaseOfLastElement` | config/config.go:79 | the base of `dir/name` and of a bare `name` is `name` |
| `FilePath.Clean` | config/config.go:91 | `filepath.Clean` is never empty and keeps an absolute path absolute |
| `FilePath.Dir` | config/config.go:91 | `filepath.Dir` is never empty and is "." for a path without '/' |
| `FilePath.DirOfJoin` | config/config.go:91 | the directory of `dir/name`, for a name without '/', is `dir` cleaned, and "/" when `dir` is empty |
| `FilePath.CleanTrailingSlash` | config/config.go:91 | a trailing '/' does not change what a non-empty path cleans to |
| `FilePath.CleanOfCleanPath` | config/config.go:91 | a path of plain elements (none empty, "." or "..") is already clean, with or without a leading '/' |
| `FilePath.ReducePlain` | config/config.go:91 | cleaning keeps plain elements as they are, in order |
| `FilePath.ReduceTrailingEmpty` | config/config.go:91 | an empty last element does not change what cleaning keeps |
| `Strings.SplitTrailing` | config/config.go:82 | a trailing separator adds one empty piece at the end of a split |
| `Strconv.Atoi` | app.go:72 | parsing succeeds only within 64 bits and only on an optional sign and digits; such text is never a syntax error; malformed text is a syntax error unless the digits it starts with already exceed 2^64 - 1; digits that exceed 2^64 - 1 are a range error, whatever follows them |
| `Strconv.AtoiValue` | app.go:72-75 | an optional sign and digits parse to the digits' value with the sign applied when that lies within 64 bits, and are a range error otherwise |
| `Strconv.DigitRun` | app.go:72 | the digits a string starts with, up to the first non-digit |
| `Strconv.DigitsPrefixBelow` | app.go:72 | a run of digits denotes at least what any of its prefixes does |
| `Strconv.LeadingDigitWeight` | app.go:72 | `n` digits denote at least the leading digit times `10^(n-1)` |
| `Strconv.TwentyDigitsOverflow` | app.go:72 | twenty digits led by 2 or more exceed 2^64 - 1 |
| `Strconv.OverflowBeforeJunk` | app.go:72-75 | a port whose first twenty digits already overflow is out of range, whatever follows them |
| `Strconv.ShortJunkIsSyntax` | app.go:72-75 | malformed text of at most 19 characters after the sign is always a syntax error |
| `Strconv.FormatInt` | app.go:98 | `%d` writes a minus sign exactly for a negative number, then digits |
| `Strconv.Decimal` | app.go:98 | `%d` writes digits only, with no leading zero |
| `Strconv.DecimalValue` | app.go:98 | the digits `%d` writes denote the number |
| `Strconv.DecimalOfDigits` | app.go:98 | digits without a superfluous leading zero are exactly what `%d` writes for their value |
| `Strconv.DigitsBelowPower` | app.go:72 | `n` digits denote less than `10^n` |
| `Strconv.ShortNumbersParse` | app.go:72-75 | any port of at most 18 digits, with or without a sign, parses to the digits' value with the sign applied; a range error needs a longer input |
| `Strconv.AtoiFormatInt` | app.go:72-98 | formatting a 64-bit integer and parsing the text gives the integer back |
| `Strconv.FormatIntAtoi` | app.go:72-98 | a canonically written number that parses is written back unchanged |
| `Config.DefaultKeysPlain` | config/config.go:27-43 | every key of the defaults table is lower-case letters, dots and dashes |
| `Config.EnvKey` | config/config.go:108-110 | the variable for a key is the prefix and '_', then each character of the key upper-cased and passed through the replacer |
| `Config.EnvCharInjective` | config/config.go:109 | under the replacer '.' to '_', distinct plain characters stay distinct |
| `Config.EnvKeyInjective` | config/config.go:108-110 | under that replacer two plain keys never share a variable |
| `Config.DefaultsReadDistinctVariables` | config/config.go:27-43 | every setting of the defaults table is overridden by a variable of its own |
| `Config.PreparedInstance` | config/config.go:68-91 | with `CRM_CONFIG` unset the instance searches "crm" in the three directories and names no file; otherwise it reads the named file, even when the derived name is empty |
| `Config.Resolve` | config/config.go:108-114 | a key resolves exactly when a non-empty prefixed variable, the file or the defaults hold it |
| `Config.AllSettings` | config/config.go:117 | what is decoded holds exactly the keys of the file and of the defaults |
| `Config.PatternIsSuffixTest` | config/config.go:78-80 | the extension pattern, anchored only at the end, matches exactly the names ending in yml, yaml, json or toml, case-sensitively |
| `Config.SplitExtension` | config/config.go:82-84 | the name and the type put back together with a dot give the base name; the type holds no dot |
| `Config.LastDotUnique` | config/config.go:82-84 | a string splits at most one way into a part, a dot and a dot-free tail |
| `Config.SplitExtensionIsLastDot` | config/config.go:82-84 | the split of the base name is the one at its last dot |
| `Config.Prepare` | config/config.go:62-95 | a home-directory error is returned; with `CRM_CONFIG` unset, "crm" is searched in ".", `<home>/.config/crm` and "/etc/crm"; a named file is accepted exactly when the pattern matches its base name and is set as name, type, file and directory; otherwise the extension error |
| `Config.BaseOfConfigFile` | config/config.go:79-84 | the base name of `dir/name.ext` is `name.ext` and passes the extension test when `ext` is one of the four words |
| `Config.WordIsSupportedSuffix` | config/config.go:78-80 | a name ending in one of the four words passes the extension test |
| `Config.ExplicitFileCalls` | config/config.go:76-91 | a file `dir/name.ext` is read as configuration `name` of type `ext`, from that file, with `dir`, cleaned, added to the search path ("/" for an empty `dir`) |
| `Config.ExplicitFileExample` | config/config.go:76-91 | `/etc/crm/crm.yaml` is read as "crm" of type "yaml", and "/etc/crm" is searched |
| `Config.EtcCrmIsClean` | config/config.go:91 | "/etc/crm" is its own cleaned form |
| `Config.RejectedName` | config/config.go:85-87 | a bare file name without a supported ending is refused with the extension error |
| `Config.RejectedExtensionExamples` | config/config.go:78-87 | "crm.YAML" and "crm.ini" are refused |
| `Config.DotlessName` | config/config.go:80-89 | a dotless bare name with a supported ending is accepted, with name "" and the whole name as type |
| `Config.DotlessNameExample` | config/config.go:80-89 | "crmtoml" is accepted as type "crmtoml" with name "" |
| `Config.LoadConfig` | config/config.go:97-123 | a `prepare` error ends the load before any call; otherwise `prepare`'s calls come first, then the read |
| `Config.AfterReadSetsUp` | config/config.go:108-115 | after the read the instance has prefix CRM, replacer '.'→'_', automatic environment lookup and exactly the defaults, and keeps what was read |
| `Config.ReplayKeepsDefaults` | config/config.go:112-115 | only registering defaults changes the defaults |
| `Config.PrepareSetsUpOnly` | config/config.go:62-95 | `prepare` only sets the configuration name, type, file and search paths |
| `Config.PrepareLeavesDefaultsEmpty` | config/config.go:98-102 | `prepare` registers no default |
| `Config.ReadFailureRegistersNoDefault` | config/config.go:103-106 | a read error is returned before any default or environment lookup is set up |
| `Config.LoadedSetup` | config/config.go:108-117 | after a successful load a key is looked up in `CRM_<KEY>` with dots as underscores, and the configuration is what decoding the resolved settings gave |
| `Config.LoadedFallsBackToDefault` | config/config.go:108-117 | a key that neither the environment nor the file sets resolves to its default |
| `Config.ResolveFallsBack` | config/config.go:108-114 | with no variable and no file entry, a key resolves to its default |
| `Config.LoadedEnvironmentWins` | config/config.go:108-110 | a non-empty `CRM_...` variable beats the file and the default |
| `Config.CorsOriginsEnvKey` | config/config.go:35 | the key `cors.allow-origins` is read from `CRM_CORS_ALLOW-ORIGINS` |
| `Config.PrecedenceExample` | config/config.go:35 | environment over file over the default "*", for the allowed origins |
| `Config.GetConfig` | config/config.go:46-60 | a cached instance is returned without loading; otherwise the loader runs, and its result is cached or its error ends the process with "error reading config file: ..." |
| `Config.FirstGetConfig` | config/config.go:46-60 | the process's first `GetConfig` runs `loadConfig` (config/config.go:97-123) with the package defaults; a failed home lookup or read ends the process with "error reading config file: " and that error, caching nothing; otherwise it returns and caches what decoding the read values over the package defaults gave |
| `Config.CachedInstanceIsStable` | config/config.go:47 | once cached, every later call returns the same instance and none runs the loader |
| `Config.LoaderRunsOnce` | config/config.go:46-55 | from an empty cache the loader runs exactly once: it fails fatally, or every call returns what it loaded |
| `Certificates.SelfSignedTemplate` | app.go:149-160 | `NotBefore` is the first clock reading and the validity lasts 180 days plus the time between the two readings |
| `Certificates.TemplateGrants` | app.go:149-160 | the template has serial 1, organisation "CRM Org", key usages exactly digital signature and key encipherment, server authentication, basic constraints valid |
| `Certificates.ValidityWindow` | app.go:154-155 | the validity lasts at least 180 days, and exactly 180 days when both clock readings agree |
| `Certificates.GenerateSelfSignedCert` | app.go:143-184 | success exactly when the key and the certificate can be made and both files created; the certificate file is written before the key file; only these two files change; their contents are the DER certificate and the PKCS #1 key |
| `Certificates.CertCreateFailureWritesNothing` | app.go:167-170 | a certificate file that cannot be created stops generation before any write |
| `Certificates.KeyCreateFailureLeavesCertificate` | app.go:167-178 | a key file that cannot be created leaves the certificate written and returns the open error |
| `Certificates.LoadX509KeyPair` | app.go:131 | a missing certificate file is an open error on it, then a missing key file on that; with both present the result is exactly the pair parsed from their contents |
| `Certificates.InitializeCert` | app.go:113-137 | generation runs exactly in "development" or "test" when the certificate file does not exist; a generation error is fatal; the pair is then loaded, and a load error is fatal |
| `Certificates.ExistingCertificateKept` | app.go:120-121 | an existing certificate file is never overwritten and nothing is written |
| `Certificates.MissingCertificateFatalOutsideDevelopment` | app.go:120-134 | outside development and test a missing certificate ends the process with the open error |
| `Certificates.DefaultEnvironmentSelfSigns` | config/config.go:28 | the default environment, "development", creates its own certificate |
| `Certificates.GateIsExact` | app.go:120 | "Development", "production" and "" never generate |
| `Certificates.DevelopmentRoundTrip` | app.go:120-134 | in development with nothing on disk, the pair loaded is exactly the certificate and key just written |
| `App.BindAddress` | app.go:71-98 | the address is the host, ':', and the parsed port in decimal; a port that does not parse gives Atoi's error |
| `App.DefaultPortValue` | app.go:72 | the default port "8443" parses to 8443 and is written the same way |
| `App.DefaultBindAddress` | app.go:71-72 | with neither variable set the address is 127.0.0.1:8443 |
| `App.CanonicalPortKept` | app.go:72-98 | a canonically written port appears in the address as given |
| `App.AddressPortParsesBack` | app.go:72-98 | whatever the spelling of the port, the address ends in digits that parse to the port read |
| `App.PortNormalised` | app.go:72-98 | the port "+08443" binds as 8443 |
| `App.SignedPortValue` | app.go:72 | "+08443" parses as 8443 |
| `App.NonNumericPortFatal` | app.go:72-75 | the port "https" ends start-up with Atoi's invalid-syntax error |
| `App.Middlewares` | app.go:84-92 | six middlewares, each installed once |
| `App.StackShape` | app.go:84-92 | one rate limiter, 50 requests per 30 seconds, last; one CORS middleware from the configuration; the request logger third |
| `App.Chain` | app.go:84-94 | the steps a request may reach: nothing when Fiber does not route its method (the nine standard verbs, exact case), otherwise every middleware of the stack, then every route handler the table offers it |
| `App.Walk` | app.go:84-94 | Fiber's rule for `Next`, on which the stack and handlers such as the version header (router.go:93-96) rely: the steps that run are a prefix of the chain; every one but the last called `Next`, and the walk stops early only at a step that did not |
| `App.WalkReaches` | app.go:84-94 | a step runs exactly when every step before it called `Next` |
| `App.WalkOfShape` | app.go:84-94 | in a chain of middleware steps then handler steps, a handler runs only after every middleware called `Next`, and the last step runs exactly when all before it called `Next` |
| `App.RoutesNeedWholeStack` | app.go:84-94 | for a routed method, a route handler of a server runs only after all six middlewares called `Next`, and the not-found handler runs exactly when every step before it calls `Next`; for any other method nothing of the server runs |
| `App.RunApp` | app.go:65-106 | a configuration or port error is fatal; a `tls.Listen` error panics; a listening server has the computed address, the configured stack and session, the route table and the certificate `initializeCert` produced |
| `App.SecondReadHitsCache` | app.go:113-114 | the configuration read for the certificate is the one read first, with no second load |
| `App.ChainOfServer` | app.go:84-94 | a request with a routed method may reach the six middlewares, the limiter last, before any route handler, and the not-found handler is its last candidate and appears nowhere else; a request with another method reaches nothing |
| `App.StackRunsFirst` | app.go:84-105 | for a server that started, every request with a routed method has the whole stack first and the not-found handler last among its candidates; any other request has none |
| `App.ProductionNeedsCertificate` | app.go:94-103 | outside development and test a missing certificate ends start-up before anything listens, and no file is written |
| `Router.CsrfErrorHandler` | router.go:22-53 | always 403; a JSON body for JSON clients, the error page with its three locals for HTML clients, plain text otherwise; an error log entry with the client's address, URL and error |
| `Router.ForbiddenTextsAgreeWithStatus` | router.go:39-51 | the message and the page's error code spell the status sent |
| `Router.ParseKeyLookup` | router.go:64 | a parsed lookup is `<source>:<key>` read back |
| `Router.ParseKeyLookupOf` | router.go:64 | every source and a key without ':' are parsed back from their lookup string |
| `Router.CsrfTokenInForm` | router.go:64 | the CSRF token is read from the form field "csrf" |
| `Router.CsrfCookieIsHostBound` | router.go:65-68 | the CSRF cookie has the `__Host-` prefix and is Secure and HTTP-only |
| `Router.SessionKeyLookupIsHostCookie` | config/config.go:39 | by default the session id is read from the `__Host-session` cookie |
| `Router.SessionCookieDefaults` | config/config.go:39-41 | the session cookie defaults to that lookup, Secure and HTTP-only |
| `Router.CsrfExpiration` | router.go:71 | CSRF tokens expire after 1800 seconds |
| `Router.SpellFirstPart` | router.go:85-89 | one parsing step writes back the route's text up to the next part |
| `Router.SpellParseRoute` | router.go:85-104 | the parsed parts of a route path write it back unchanged |
| `Router.MatchStartsWithLiteral` | router.go:85-104 | a route starting with literal text matches only paths starting with it |
| `Router.PrettyPathOfNormal` | router.go:83-93 | a lower-case path with a leading slash and no trailing slash is registered as written |
| `Router.PrettyPathKeepsPrefix` | router.go:83-104 | normalising a registered path keeps its lower-case prefix |
| `Router.GroupPathJoins` | router.go:83-93 | a group's prefix and a path starting with '/' are concatenated |
| `Router.ParamTakesNoSlash` | router.go:87-89 | in a matching route a parameter followed by nothing or by a literal longer than one character took no '/' |
| `Router.Matches` | router.go:75-115 | `Use` at "/" takes every request; the other registrations take only GET and HEAD, and a GET route only a path its parts match |
| `Router.Dispatch` | router.go:59-116 | at most one candidate handler per registration |
| `Router.FilterNoneOrAll` | router.go:75-115 | a filter accepting nothing yields nothing; one accepting everything yields every handler in table order |
| `Router.DispatchNoneOrAll` | router.go:75-115 | no registration matching leaves no candidate; all matching makes every handler a candidate, in table order |
| `Router.FilterMembers` | router.go:75-115 | a handler is in the filtered chain exactly when one of its registrations is offered the request |
| `Router.FilterAppend` | router.go:75-115 | the chain of two tables laid end to end is the two chains laid end to end |
| `Router.DispatchMembers` | router.go:75-115 | a handler is offered a request exactly when one of its registrations matches it |
| `Router.DispatchFrom` | router.go:75-115 | only registered handlers are offered requests |
| `Router.DispatchAppend` | router.go:75-115 | registration order is offer order across table parts |
| `Router.InitRouter` | router.go:59-116 | fourteen registrations, starting with the static files from `CRM_PUBLIC_PATH` or "./public" and ending with the not-found handler |
| `Router.HandlerAbsent` | router.go:75-115 | a handler that is not registered is never offered anything |
| `Router.SingleDispatch` | router.go:75-115 | a single registration offers its handler exactly when it matches |
| `Router.DispatchGroups` | router.go:83-115 | a table made of the front, two groups and the tail is offered part by part |
| `Router.ChainShape` | router.go:75-115 | the chain is the front's, then the CSRF guard's, the admin pages', the version header's, the API's and the fallback's |
| `Router.AdminPagePaths` | router.go:85-89 | every admin page is a GET route under "/admin" |
| `Router.V1PrefixIs` | router.go:92-93 | the version group's prefix is "/api/v1" |
| `Router.ApiRoutePaths` | router.go:101-104 | every API route is a GET route under "/api/v1" |
| `Router.DispatchedUnderPrefix` | router.go:83-104 | a request offered to a GET route under a plain prefix has a path under that prefix |
| `Router.AdminPagesUnderPrefix` | router.go:85-89 | all admin pages are GET routes under "/admin" |
| `Router.ApiRoutesUnderPrefix` | router.go:101-104 | all API routes are GET routes under "/api/v1" |
| `Router.AdminPageNeedsAdminPath` | router.go:83-89 | a request offered to an admin page has a path under "/admin" |
| `Router.ApiHandlerNeedsApiPath` | router.go:92-104 | a request offered to an API handler has a path under "/api/v1" |
| `Router.GuardMatchesAdminPaths` | router.go:83-84 | the CSRF middleware is offered exactly the requests whose lower-cased path starts with "/admin" (so "/administrator" too) |
| `Router.VersionHeaderMatchesV1Paths` | router.go:93-96 | the version header middleware is offered exactly the requests whose lower-cased path starts with "/api/v1" |
| `Router.FallbackMatchesAll` | router.go:115 | the not-found handler is offered every request |
| `Router.FrontOffers` | router.go:75-77 | the front of the table offers only the static files and the index page |
| `Router.AdminPageHandlers` | router.go:85-89 | the admin group registers five admin page handlers |
| `Router.AdminPagesOffer` | router.go:85-89 | the admin pages offer only admin page handlers |
| `Router.ApiRouteHandlers` | router.go:101-104 | the version group registers four API handlers |
| `Router.ApiRoutesOffer` | router.go:101-104 | the API routes offer only API handlers |
| `Router.ChainParts` | router.go:75-115 | the chain is laid out in six parts, each holding only its own handlers, with the guard present exactly under "/admin" and the version header exactly under "/api/v1" |
| `Router.PartOf` | router.go:83-104 | in that layout admin pages come only from the admin part and API handlers only from the API part |
| `Router.CsrfGuardIffAdminPath` | router.go:83-84 | a request reaches the CSRF middleware exactly when its lower-cased path starts with "/admin" |
| `Router.AdminPagesBehindCsrf` | router.go:83-89 | every admin page is offered a request only after the CSRF middleware has been |
| `Router.ApiRoutesUnguarded` | router.go:92-104 | no request that reaches an API route passes the CSRF middleware |
| `Router.ApiRoutesAfterVersionHeader` | router.go:93-104 | every API route is offered a request after the middleware that sets `Version: v1` |
| `Router.NotFoundIsLast` | router.go:115 | every request's candidates end at the not-found handler, which appears nowhere else among them |
| `Logging.FoldRune` | log.go:13 | ASCII capitals fold to lower case; only they, U+0130 and U+212A change |
| `Logging.Fold` | log.go:13 | lower-casing folds rune by rune and keeps the length |
| `Logging.ParseLevel` | log.go:13 | a level parses exactly when its lower case is "warn" or a level's name, and then to that level; otherwise the "not a valid logrus Level" error quoting the input |
| `Logging.ParseLevelName` | log.go:13 | every level's name parses back to it |
| `Logging.LevelNamesDistinct` | log.go:13 | no two levels share a name |
| `Logging.FoldIdempotent` | log.go:13 | lower-casing twice is lower-casing once |
| `Logging.FoldIgnoresUpperCase` | log.go:13 | upper-casing first changes nothing after lower-casing |
| `Logging.ParseLevelIgnoresCase` | log.go:13 | parsing ignores ASCII case |
| `Logging.DottedCapitalSpellsInfo` | log.go:13 | "İNFO" with the dotted capital I parses as info |
| `Logging.RejectedLevels` | log.go:13-15 | "", "warnings" and "information" are rejected, so the level is left alone |
| `Logging.InitLogging` | log.go:9-27 | the JSON formatter exactly for `LOG_FORMATTER=json`, the text formatter with full timestamps otherwise, both with timestamp layout "2006-01-02 15:04:05"; a parsable `LOG_LEVEL` (default "info") is applied, an unparsable one leaves the level as it was |
| `Logging.DefaultLogging` | log.go:10-26 | with neither variable set: info level, text formatter, full timestamps |
| `Logging.DefaultsMatchLogFallbacks` | config/config.go:30-31 | the configuration defaults for formatter and level are the logger's fallbacks |
| `Logging.JsonIsCaseSensitive` | log.go:17 | "JSON" selects the text formatter |
| `Logging.UpperCaseLevelApplies` | log.go:13-15 | a level name in capitals is applied |
| `Logging.InitLoggingIdempotent` | log.go:9-27 | running the setup twice under the same environment is running it once |
| `Handlers.AssertBool` | handlers/handlers.go:23 | the comma-ok assertion succeeds exactly on a boolean and then yields it; otherwise false |
| `Handlers.Index` | handlers/handlers.go:17-31 | a session store error gives 500; the page, titled "App", with 200 exactly when `loggedIn` holds the boolean true; a 302 redirect to /login with the locals untouched otherwise |
| `Handlers.MissingOrNonBoolIsLoggedOut` | handlers/handlers.go:23-26 | a missing or non-boolean `loggedIn` redirects to /login |
| `Handlers.LoggedInGetsIndex` | handlers/handlers.go:23-30 | a logged-in session gets the index page titled "App" |
| `Handlers.StringTrueIsLoggedOut` | handlers/handlers.go:23-26 | the string "true" is not the boolean true: redirect |
| `Handlers.OnlyIndexSetsTitle` | handlers/handlers.go:28 | only the page response sets the title |

## Left out

- Cryptography: RSA key generation, certificate signing, PKCS #1 marshalling and key-pair parsing are a `Crypto` record of functions passed in.
- `pem.Encode`'s result is discarded by the source, so the model writes a block and cannot fail there.
- File reads: only a missing file is an error of `tls.LoadX509KeyPair`. Read and permission errors are not modelled.
- The clock: `time.Now` is two integer readings passed in.
- viper's internals: reading and parsing the file, and decoding it into the structure, are functions passed in.
  - Key search is ASCII upper-casing of the prefixed key.
  - Path normalisation of the search paths is not modelled.
  - The `range defaults` loop is one step: Go visits a map in no fixed order and every key is distinct.
- The cors and session configuration types and their `To...Config` conversions are not part of this model. Their fields follow the keys of the defaults table.
- Fiber's middleware behaviour is not modelled: helmet, cors, the request logger, recover, etag, the limiter, the session store and CSRF token checking. Only their order and settings are.
  - `Accepts` negotiation is an input of the CSRF error handler.
  - The session store's lookup is an input of the index handler.
- Route parameters follow Fiber's rule for plain parameters. A last parameter ends at the next '/'. Otherwise it ends where the literal text after it first occurs. If that literal is longer than one character and a '/' comes before it, the route does not match. A one-character literal is looked for with no such check. Optional, greedy and wildcard parameters are not used by the table and are not modelled. The Fiber source is not part of this model.
- Router.Matches: like `Router.Dispatch`, `Router.FallbackMatchesAll` and `Router.NotFoundIsLast`, it does not check the request method. Fiber refuses any verb outside its nine before routing. `App.Chain` models that refusal (`Router.KnownMethod`), so these facts hold only for the requests that reach the table.
- The 400 "Invalid http method" answer Fiber gives itself to an unknown verb is not modelled; the model only says no middleware or handler of the server runs.
- Calling `Next`: what each middleware and handler does is not modelled, so whether it calls `Next` is an input of `App.Walk`.
- `Config.Apply`: viper turns a search directory into an absolute path before skipping duplicates. That needs the working directory, so the model compares directories as given.
- Concurrency: goroutines, the context, the wait group, the mutex of `GetConfig`, signal handling and the process's `run`/`init` steps in main.go are left out.
  - `GetConfig` is modelled as the sequential cache the double-checked lock yields.
  - After `tls.Listen` succeeds the model stops. `app.Listener(ln)` and the fatal log of its eventual return are not modelled.
- Log output: the text logged by `log.Fatal`, `Debug`, `Tracef` and `fmt.Printf` is not kept, except the CSRF error entry and the fatal messages.
- The repository initialisation, the not-found handler's page, the templates and the other handlers are not part of this model.
- `Logging.ParseLevel`: the error quotes the input between plain double quotes. Go's `%q` escaping of special characters is not modelled.
- `App.BindAddress`: Atoi's error quotes the input between plain double quotes. `strconv.Quote` escaping is not modelled.
- `Logging.FoldRune`: only the runes whose lower case can meet the ASCII level names are folded. Other non-ASCII runes are kept, which changes no comparison.
- `Router.ParseKeyLookup`: how Fiber's middlewares read a `KeyLookup` string is not in this repository. The model splits at ':', requires two pieces and a known source.
