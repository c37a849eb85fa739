/** The server start-up of app.go's `runApp`: the configuration it reads, the
    bind address it computes from the environment, the middleware stack and
    routes it installs, the TLS certificate it provisions, and the listener
    it opens. */
module App {
  import opened Outcomes
  import opened Env
  import Strconv
  import Config
  import Certificates
  import Router

  // ---------------------------------------------------------------------
  // The bind address

  const AddressVariable := "CRM_BIND_ADDRESS"
  const PortVariable := "CRM_BIND_PORT"
  const DefaultAddress := "127.0.0.1"
  const DefaultPort := "8443"

  /** The text of the `*strconv.NumError` that `Atoi` returns. */
  function AtoiMessage(s: string, e: Strconv.NumError): string {
    "strconv.Atoi: parsing \"" + s + "\": "
      + match e
        case InvalidSyntax => "invalid syntax"
        case OutOfRange => "value out of range"
  }

  /** `fmt.Sprintf("%s:%d", bindAddress, bindPort)` once the port has been
      parsed, or the error that ends the process when it cannot be. */
  function BindAddress(env: Environment): (r: Result<string, string>)
    ensures var port := Strconv.Atoi(Getenv(env, PortVariable, DefaultPort));
      && (r.Success? <==> port.Success?)
      && (r.Success? ==> r.value == Getenv(env, AddressVariable, DefaultAddress) + ":" + Strconv.FormatInt(port.value))
      && (r.Failure? ==> r.error == AtoiMessage(Getenv(env, PortVariable, DefaultPort), port.error))
  {
    var host := Getenv(env, AddressVariable, DefaultAddress);
    var text := Getenv(env, PortVariable, DefaultPort);
    match Strconv.Atoi(text)
    case Success(port) => Success(host + ":" + Strconv.FormatInt(port))
    case Failure(e) => Failure(AtoiMessage(text, e))
  }

  /** "8443" is the canonical spelling of 8443. */
  lemma DefaultPortValue()
    ensures Strconv.FormatInt(8443) == DefaultPort
    ensures Strconv.Atoi(DefaultPort) == Success(8443)
  {
    assert Strconv.Decimal(8) == "8";
    assert Strconv.Decimal(84) == "84";
    assert Strconv.Decimal(844) == "844";
    assert Strconv.Decimal(8443) == "8443";
    Strconv.AtoiFormatInt(8443);
  }

  /** With neither variable set the server binds to the loopback port 8443. */
  lemma DefaultBindAddress(env: Environment)
    requires AddressVariable !in env && PortVariable !in env
    ensures BindAddress(env) == Success("127.0.0.1:8443")
  {
    DefaultPortValue();
    assert DefaultAddress + ":" + DefaultPort == "127.0.0.1:8443";
  }

  /** The port is written back as it was given whenever it was written
      canonically: no plus sign and no leading zero. */
  lemma CanonicalPortKept(env: Environment, host: string, port: string)
    requires env == map[AddressVariable := host, PortVariable := port]
    requires Strconv.Canonical(port) && Strconv.Atoi(port).Success?
    ensures BindAddress(env) == Success(host + ":" + port)
  {
    Strconv.FormatIntAtoi(port);
  }

  /** Whatever spelling was given, the address ends in a port that parses
      back to the number that was read. */
  lemma AddressPortParsesBack(env: Environment)
    requires BindAddress(env).Success?
    ensures var n := Strconv.Atoi(Getenv(env, PortVariable, DefaultPort)).value;
      exists digits :: BindAddress(env).value == Getenv(env, AddressVariable, DefaultAddress) + ":" + digits
                       && Strconv.Atoi(digits) == Success(n)
  {
    var n := Strconv.Atoi(Getenv(env, PortVariable, DefaultPort)).value;
    Strconv.AtoiFormatInt(n);
    assert Strconv.Atoi(Strconv.FormatInt(n)) == Success(n);
  }

  /** The two variables as given are what `runApp` reads. */
  lemma ReadsGiven(env: Environment, host: string, port: string)
    requires env == map[AddressVariable := host, PortVariable := port]
    ensures Getenv(env, AddressVariable, DefaultAddress) == host
    ensures Getenv(env, PortVariable, DefaultPort) == port
  {
  }

  /** "+08443" spells 8443. */
  lemma SignedPortValue()
    ensures Strconv.Atoi("+08443") == Success(8443)
  {
    assert "+08443"[1..] == "08443";
    assert Strconv.AllDigits("08443");
    Strconv.ShortNumbersParse("+08443");
    assert "0"[..0] == "";
    assert "08"[..1] == "0";
    assert "084"[..2] == "08";
    assert "0844"[..3] == "084";
    assert "08443"[..4] == "0844";
    assert Strconv.DigitsValue("08443") == 8443;
  }

  /** A sign and leading zeros are accepted and dropped: the port "+08443"
      binds as 8443. */
  lemma PortNormalised(env: Environment, host: string)
    requires env == map[AddressVariable := host, PortVariable := "+08443"]
    ensures BindAddress(env) == Success(host + ":8443")
  {
    SignedPortValue();
    DefaultPortValue();
    ReadsGiven(env, host, "+08443");
    assert host + ":" + "8443" == host + ":8443";
  }

  /** A port that is not a number ends the process with Atoi's error. */
  lemma NonNumericPortFatal(env: Environment, host: string)
    requires env == map[AddressVariable := host, PortVariable := "https"]
    ensures BindAddress(env) == Failure("strconv.Atoi: parsing \"https\": invalid syntax")
  {
    assert !Strconv.IsDigit("https"[0]);
    Strconv.ShortJunkIsSyntax("https");
    ReadsGiven(env, host, "https");
    assert AtoiMessage("https", Strconv.InvalidSyntax) == "strconv.Atoi: parsing \"https\": invalid syntax";
  }

  // ---------------------------------------------------------------------
  // The server

  /** The middleware `runApp` installs with `app.Use`, in order. */
  datatype Middleware =
    | Helmet
    | Cors(settings: Config.CorsConfig)
    | RequestLogger
    | Recover
    | ETag
    | Limiter(expiration: int, max: nat)

  const LimiterExpiration: int := 30 * Certificates.Second
  const LimiterMax: nat := 50

  function Middlewares(conf: Config.Config): (stack: seq<Middleware>)
    ensures |stack| == 6
    ensures forall i, j :: 0 <= i < j < |stack| ==> stack[i] != stack[j]
  {
    [Helmet, Cors(conf.cors), RequestLogger, Recover, ETag, Limiter(LimiterExpiration, LimiterMax)]
  }

  /** The stack holds one rate limiter, 50 requests per 30 seconds, and one
      CORS middleware, set from the configuration; the limiter is last, after
      the request logger. */
  lemma StackShape(conf: Config.Config)
    ensures var stack := Middlewares(conf);
      && (forall i :: 0 <= i < |stack| && stack[i].Limiter? ==> i == 5 && stack[i] == Limiter(30_000_000_000, 50))
      && (forall i :: 0 <= i < |stack| && stack[i].Cors? ==> stack[i].settings == conf.cors)
      && stack[2] == RequestLogger
  {
  }

  /** A listening server: the address, the middleware, the route table, the
      session settings it was built with and the certificate it presents. */
  datatype Server = Server(
    address: string,
    stack: seq<Middleware>,
    routes: seq<Router.Registration>,
    session: Config.SessionConfig,
    certificate: Certificates.TlsCertificate)

  /** A step of a request's way through the server. Middleware installed by
      `app.Use` with no path matches every request and runs before any
      route registered after it. */
  datatype Step = Global(m: Middleware) | Routed(h: Router.Handler)

  /** The steps a request may reach, in order: none when Fiber does not
      route its method, otherwise the whole stack, then the route handlers
      `Dispatch` offers. */
  function Chain(server: Server, req: Router.Request): (steps: seq<Step>)
    ensures !Router.KnownMethod(req.verb) ==> steps == []
    ensures Router.KnownMethod(req.verb) ==> |steps| == |server.stack| + |Router.Dispatch(server.routes, req)|
  {
    if !Router.KnownMethod(req.verb) then []
    else
      var offered := Router.Dispatch(server.routes, req);
      seq(|server.stack|, i requires 0 <= i < |server.stack| => Global(server.stack[i]))
        + seq(|offered|, i requires 0 <= i < |offered| => Routed(offered[i]))
  }

  /** The steps that run, where `next` says whether a step calls `Next`:
      the first step runs, and each later one only if the one before it
      called `Next`. */
  function Walk(steps: seq<Step>, next: Step -> bool): (ran: seq<Step>)
    ensures |ran| <= |steps| && ran == steps[..|ran|]
    ensures forall i :: 0 <= i < |ran| - 1 ==> next(ran[i])
    ensures |ran| < |steps| ==> |ran| > 0 && !next(ran[|ran| - 1])
    decreases |steps|
  {
    if steps == [] then []
    else if !next(steps[0]) then [steps[0]]
    else [steps[0]] + Walk(steps[1..], next)
  }

  /** A step is reached exactly when every step before it calls `Next`. */
  lemma WalkReaches(steps: seq<Step>, next: Step -> bool, j: nat)
    requires j < |steps|
    ensures var ran := Walk(steps, next);
      j < |ran| <==> forall i :: 0 <= i < j ==> next(steps[i])
  {
    var ran := Walk(steps, next);
    if j < |ran| {
      assert forall i :: 0 <= i < j ==> ran[i] == steps[i];
    } else {
      assert |ran| - 1 < j && ran[|ran| - 1] == steps[|ran| - 1];
    }
  }

  /** How start-up ends, the configuration store after it, and the file
      system after it. */
  datatype Launch = Launch(exit: Exit<Server>, store: Config.Store, fs: Certificates.FileSystem)

  /** `runApp` up to the point where the server is listening. `load` is what
      `loadConfig` would return, `now1` and `now2` the clock readings of
      `generateSelfSignedCert`, and `listen` the error `tls.Listen` gives
      for an address, if any. */
  function RunApp(
    store: Config.Store, load: Config.Load, env: Environment, fs: Certificates.FileSystem,
    crypto: Certificates.Crypto, now1: int, now2: int, listen: string -> Option<string>)
    : (l: Launch)
    ensures Config.GetConfig(store, load).exit.Fatal? ==> l.exit == Fatal(Config.GetConfig(store, load).exit.message) && l.fs == fs
    ensures Config.GetConfig(store, load).exit.Done? && BindAddress(env).Failure? ==>
      l.exit == Fatal(BindAddress(env).error) && l.fs == fs
    ensures l.store == Config.GetConfig(store, load).store
    ensures l.exit.Panic? ==> BindAddress(env).Success? && listen(BindAddress(env).value) == Some(l.exit.message)
    ensures l.exit.Done? ==>
      var conf := Config.GetConfig(store, load).exit.value;
      var p := Certificates.InitializeCert(conf, env, fs, crypto, now1, now2);
      && Config.GetConfig(store, load).exit.Done?
      && BindAddress(env).Success?
      && p.exit == Done(l.exit.value.certificate)
      && l.exit.value == Server(BindAddress(env).value, Middlewares(conf), Router.InitRouter(env), conf.session, p.exit.value)
      && listen(l.exit.value.address).None?
      && l.fs == p.fs
  {
    var first := Config.GetConfig(store, load);
    match first.exit
    case Fatal(m) => Launch(Fatal(m), first.store, fs)
    case Panic(m) => Launch(Panic(m), first.store, fs)
    case Done(conf) =>
      match BindAddress(env)
      case Failure(e) => Launch(Fatal(e), first.store, fs)
      case Success(address) =>
        var stack := Middlewares(conf);
        var routes := Router.InitRouter(env);
        // initializeCert reads the configuration again
        var second := Config.GetConfig(first.store, load);
        match second.exit
        case Fatal(m) => Launch(Fatal(m), second.store, fs)
        case Panic(m) => Launch(Panic(m), second.store, fs)
        case Done(certConf) =>
          var p := Certificates.InitializeCert(certConf, env, fs, crypto, now1, now2);
          match p.exit
          case Fatal(m) => Launch(Fatal(m), second.store, p.fs)
          case Panic(m) => Launch(Panic(m), second.store, p.fs)
          case Done(cert) =>
            match listen(address)
            case Some(err) => Launch(Panic(err), second.store, p.fs)
            case None => Launch(Done(Server(address, stack, routes, conf.session, cert)), second.store, p.fs)
  }

  /** The configuration read when the certificate is provisioned is the one
      read first: the second read hits the cache and runs no loader,
      whatever the loader would do by then. */
  lemma SecondReadHitsCache(store: Config.Store, load: Config.Load, later: Config.Load)
    requires Config.GetConfig(store, load).exit.Done?
    ensures var first := Config.GetConfig(store, load);
      Config.GetConfig(first.store, later) == Config.Access(first.exit, first.store, false)
  {
  }

  /** A server built from some configuration's stack and the route table
      offers a request with a routed method the whole stack, rate limiter
      included, before any route handler, and the not-found handler last
      and only last; a request with another method is offered nothing. */
  lemma ChainOfServer(server: Server, conf: Config.Config, env: Environment, req: Router.Request)
    requires server.stack == Middlewares(conf) && server.routes == Router.InitRouter(env)
    ensures !Router.KnownMethod(req.verb) ==> Chain(server, req) == []
    ensures Router.KnownMethod(req.verb) ==>
      var steps := Chain(server, req);
      && |steps| > 6
      && (forall i :: 0 <= i < 6 ==> steps[i] == Global(server.stack[i]))
      && steps[5] == Global(Limiter(LimiterExpiration, LimiterMax))
      && (forall i :: 6 <= i < |steps| ==> steps[i].Routed?)
      && steps[|steps| - 1] == Routed(Router.NotFound)
      && (forall i :: 0 <= i < |steps| - 1 ==> steps[i] != Routed(Router.NotFound))
  {
    Router.NotFoundIsLast(env, req);
  }

  /** In a chain of `n` middleware steps followed by handler steps, the
      last of which is `last` and appears nowhere earlier: a handler runs
      only when the `n` middleware ran and called `Next`, and `last` runs
      exactly when every step before it calls `Next`. */
  lemma WalkOfShape(steps: seq<Step>, next: Step -> bool, n: nat, last: Step)
    requires n < |steps|
    requires forall i :: 0 <= i < n ==> steps[i].Global?
    requires forall i :: n <= i < |steps| ==> steps[i].Routed?
    requires steps[|steps| - 1] == last && forall i :: 0 <= i < |steps| - 1 ==> steps[i] != last
    ensures var ran := Walk(steps, next);
      && (forall j :: 0 <= j < |ran| && ran[j].Routed? ==> j >= n && forall i :: 0 <= i < n ==> next(steps[i]))
      && (last in ran <==> forall i :: 0 <= i < |steps| - 1 ==> next(steps[i]))
  {
    var ran := Walk(steps, next);
    forall j | 0 <= j < |ran| && ran[j].Routed?
      ensures j >= n && forall i :: 0 <= i < n ==> next(steps[i])
    {
      assert ran[j] == steps[j];
      WalkReaches(steps, next, j);
    }
    WalkReaches(steps, next, |steps| - 1);
    if last in ran {
      var j :| 0 <= j < |ran| && ran[j] == last;
      assert steps[j] == last;
    }
    if forall i :: 0 <= i < |steps| - 1 ==> next(steps[i]) {
      assert ran[|steps| - 1] == last;
    }
  }

  /** For a routed method, a route handler of the server runs only after
      every middleware of the stack ran and called `Next`, and the
      not-found handler runs exactly when every step before it calls
      `Next`; for any other method nothing runs. */
  lemma RoutesNeedWholeStack(server: Server, conf: Config.Config, env: Environment, req: Router.Request, next: Step -> bool)
    requires server.stack == Middlewares(conf) && server.routes == Router.InitRouter(env)
    ensures !Router.KnownMethod(req.verb) ==> Walk(Chain(server, req), next) == []
    ensures Router.KnownMethod(req.verb) ==>
      var steps := Chain(server, req);
      var ran := Walk(steps, next);
      && (forall j :: 0 <= j < |ran| && ran[j].Routed? ==> j >= 6 && forall i :: 0 <= i < 6 ==> next(Global(server.stack[i])))
      && (Routed(Router.NotFound) in ran <==> forall i :: 0 <= i < |steps| - 1 ==> next(steps[i]))
  {
    var steps := Chain(server, req);
    ChainOfServer(server, conf, env, req);
    if Router.KnownMethod(req.verb) {
      WalkOfShape(steps, next, 6, Routed(Router.NotFound));
    }
  }

  /** Every request to a listening server whose method Fiber routes may
      reach the whole middleware stack before any route handler, and its
      last candidate is the not-found handler; any other request reaches
      nothing of the server's. */
  lemma StackRunsFirst(
    store: Config.Store, load: Config.Load, env: Environment, fs: Certificates.FileSystem,
    crypto: Certificates.Crypto, now1: int, now2: int, listen: string -> Option<string>, req: Router.Request)
    requires RunApp(store, load, env, fs, crypto, now1, now2, listen).exit.Done?
    ensures var server := RunApp(store, load, env, fs, crypto, now1, now2, listen).exit.value;
      !Router.KnownMethod(req.verb) ==> Chain(server, req) == []
    ensures var server := RunApp(store, load, env, fs, crypto, now1, now2, listen).exit.value;
      var steps := Chain(server, req);
      Router.KnownMethod(req.verb) ==>
      && |steps| > 6
      && (forall i :: 0 <= i < 6 ==> steps[i] == Global(server.stack[i]))
      && steps[5] == Global(Limiter(LimiterExpiration, LimiterMax))
      && steps[|steps| - 1] == Routed(Router.NotFound)
  {
    var server := RunApp(store, load, env, fs, crypto, now1, now2, listen).exit.value;
    ChainOfServer(server, Config.GetConfig(store, load).exit.value, env, req);
  }

  /** In production a missing certificate stops start-up before anything
      listens, and no file is written. */
  lemma ProductionNeedsCertificate(
    store: Config.Store, load: Config.Load, env: Environment, fs: Certificates.FileSystem,
    crypto: Certificates.Crypto, now1: int, now2: int, listen: string -> Option<string>)
    requires Config.GetConfig(store, load).exit.Done?
    requires !Certificates.SelfSigningEnv(Config.GetConfig(store, load).exit.value.env)
    requires BindAddress(env).Success?
    requires Certificates.CertPath(env) !in fs.files
    ensures var l := RunApp(store, load, env, fs, crypto, now1, now2, listen);
      l.exit == Fatal(Certificates.OpenError(Certificates.CertPath(env), Certificates.NoSuchFile)) && l.fs == fs
  {
    var conf := Config.GetConfig(store, load).exit.value;
    Certificates.MissingCertificateFatalOutsideDevelopment(conf, env, fs, crypto, now1, now2);
  }
}
