/** TLS provisioning in app.go: `initializeCert` decides whether to create a
    self-signed certificate and then always loads the key pair;
    `generateSelfSignedCert` fills in the certificate template and writes
    the two PEM files, certificate first. The cryptography is an oracle. */
module Certificates {
  import opened Outcomes
  import opened Env
  import Config

  newtype byte = x: int | 0 <= x < 0x100

  /** An `encoding/pem` block: its type line and its payload. */
  datatype PemBlock = PemBlock(kind: string, bytes: seq<byte>)

  /** What a file holds: a PEM block this program wrote, or bytes that were
      there already. */
  datatype Content = Pem(block: PemBlock) | Raw(bytes: seq<byte>)

  /** The files that exist, and the error text of the paths on which
      `os.Stat` or `os.Create` fails for a reason other than absence (a
      missing directory, a permission). */
  datatype FileSystem = FileSystem(
    files: map<string, Content>,
    statFails: map<string, string>,
    createFails: map<string, string>)

  /** What `initializeCert` learns from `os.Stat`: `os.IsNotExist(err)` or not. */
  datatype StatResult = Exists | NotExist | StatFailed

  function Stat(fs: FileSystem, path: string): StatResult {
    if path in fs.statFails then StatFailed
    else if path in fs.files then Exists
    else NotExist
  }

  /** The text of a `*PathError` from opening a file. */
  function OpenError(path: string, reason: string): string {
    "open " + path + ": " + reason
  }

  const NoSuchFile := "no such file or directory"

  /** `os.Create` followed by `pem.Encode`: the file is truncated and then
      holds the block. The encoder's error is discarded by the source. */
  function WriteFile(fs: FileSystem, path: string, block: PemBlock): FileSystem {
    fs.(files := fs.files[path := Pem(block)])
  }

  // ----- the certificate template -----

  /** `time.Duration` is a count of nanoseconds. */
  const Second: int := 1_000_000_000
  const Hour: int := 3600 * Second
  const Day: int := 24 * Hour

  /** `time.Hour * 24 * 180`. */
  const Validity: int := Hour * 24 * 180

  /** The `x509.KeyUsage` bits, in the order `crypto/x509` declares them. */
  datatype KeyUsage =
    | DigitalSignature | ContentCommitment | KeyEncipherment | DataEncipherment
    | KeyAgreement | CertSign | CrlSign | EncipherOnly | DecipherOnly

  const AllUsages: set<KeyUsage> := {
    DigitalSignature, ContentCommitment, KeyEncipherment, DataEncipherment,
    KeyAgreement, CertSign, CrlSign, EncipherOnly, DecipherOnly }

  /** `KeyUsage` is `1 << iota`. */
  function UsageBit(u: KeyUsage): bv32 {
    match u
    case DigitalSignature => 1
    case ContentCommitment => 2
    case KeyEncipherment => 4
    case DataEncipherment => 8
    case KeyAgreement => 16
    case CertSign => 32
    case CrlSign => 64
    case EncipherOnly => 128
    case DecipherOnly => 256
  }

  /** The usages a key-usage mask grants. */
  function Usages(mask: bv32): set<KeyUsage> {
    set u | u in AllUsages && mask & UsageBit(u) != 0
  }

  datatype ExtKeyUsage = AnyUsage | ServerAuth | ClientAuth | CodeSigning | EmailProtection

  /** The fields of `x509.Certificate` the program sets; times are
      nanosecond clock readings. */
  datatype Template = Template(
    serialNumber: nat,
    organization: seq<string>,
    notBefore: int,
    notAfter: int,
    keyUsage: bv32,
    extKeyUsage: seq<ExtKeyUsage>,
    basicConstraintsValid: bool)

  /** The template of `generateSelfSignedCert`. The source reads the clock
      twice: `now1` for `NotBefore`, `now2` for `NotAfter`. */
  function SelfSignedTemplate(now1: int, now2: int): (t: Template)
    ensures t.notBefore == now1
    ensures t.notAfter - t.notBefore == Validity + (now2 - now1)
    ensures now1 <= now2 ==> t.notAfter - t.notBefore >= Validity
  {
    Template(
      serialNumber := 1,
      organization := ["CRM Org"],
      notBefore := now1,
      notAfter := now2 + Validity,
      keyUsage := UsageBit(KeyEncipherment) | UsageBit(DigitalSignature),
      extKeyUsage := [ServerAuth],
      basicConstraintsValid := true)
  }

  /** The template describes a server certificate issued to "CRM Org" under
      serial 1 whose key may sign and encipher keys and nothing else. */
  lemma TemplateGrants(now1: int, now2: int)
    ensures var t := SelfSignedTemplate(now1, now2);
      && t.serialNumber == 1
      && t.organization == ["CRM Org"]
      && Usages(t.keyUsage) == {DigitalSignature, KeyEncipherment}
      && t.extKeyUsage == [ServerAuth]
      && t.basicConstraintsValid
  {
    var t := SelfSignedTemplate(now1, now2);
    assert t.keyUsage == 5;
    forall u | u in AllUsages
      ensures u in Usages(5) <==> u == DigitalSignature || u == KeyEncipherment
    {
      match u
      case DigitalSignature =>
      case ContentCommitment => assert (5 as bv32) & 2 == 0;
      case KeyEncipherment =>
      case DataEncipherment => assert (5 as bv32) & 8 == 0;
      case KeyAgreement => assert (5 as bv32) & 16 == 0;
      case CertSign => assert (5 as bv32) & 32 == 0;
      case CrlSign => assert (5 as bv32) & 64 == 0;
      case EncipherOnly => assert (5 as bv32) & 128 == 0;
      case DecipherOnly => assert (5 as bv32) & 256 == 0;
    }
  }

  /** The certificate is valid for at least 180 days from `NotBefore` when the
      clock does not go back between the two readings, and for exactly 180
      days when both readings agree. */
  lemma ValidityWindow(now1: int, now2: int)
    requires now1 <= now2
    ensures var t := SelfSignedTemplate(now1, now2);
      && t.notAfter - t.notBefore >= 180 * Day
      && (now1 == now2 ==> t.notAfter - t.notBefore == 180 * Day)
  {
  }

  // ----- generateSelfSignedCert -----

  const KeyBits: nat := 2048
  const CertificateBlock := "CERTIFICATE"
  const KeyBlock := "RSA PRIVATE KEY"

  datatype PrivateKey = PrivateKey(material: seq<byte>)

  /** A parsed key pair, as `tls.Certificate` holds it. */
  datatype TlsCertificate = TlsCertificate(chain: seq<seq<byte>>, key: PrivateKey)

  /** The cryptographic library: `rsa.GenerateKey` with the bit size,
      `x509.CreateCertificate` with template, parent and signing key,
      `x509.MarshalPKCS1PrivateKey`, and the parse step of
      `tls.LoadX509KeyPair` on the two files' contents. */
  datatype Crypto = Crypto(
    generateKey: nat -> Result<PrivateKey, string>,
    createCertificate: (Template, Template, PrivateKey) -> Result<seq<byte>, string>,
    marshalPkcs1: PrivateKey -> seq<byte>,
    x509KeyPair: (Content, Content) -> Result<TlsCertificate, string>)

  /** The result of `generateSelfSignedCert`: the file system after it, the
      files it created in order, and the error it returned. */
  datatype Generation = Generation(fs: FileSystem, created: seq<string>, err: Option<string>)

  function GenerateSelfSignedCert(
    fs: FileSystem, crypto: Crypto, now1: int, now2: int, certFile: string, keyFile: string): (g: Generation)
    ensures g.err.None? <==>
      && crypto.generateKey(KeyBits).Success?
      && crypto.createCertificate(SelfSignedTemplate(now1, now2), SelfSignedTemplate(now1, now2),
                                  crypto.generateKey(KeyBits).value).Success?
      && certFile !in fs.createFails
      && keyFile !in fs.createFails
    ensures g.created <= [certFile, keyFile]
    ensures g.err.None? ==> g.created == [certFile, keyFile]
    ensures g.fs.statFails == fs.statFails && g.fs.createFails == fs.createFails
    ensures g.fs.files.Keys == fs.files.Keys + set p | p in g.created
    ensures forall p :: p in fs.files && p !in g.created ==> g.fs.files[p] == fs.files[p]
    ensures g.created != [] ==>
      && crypto.generateKey(KeyBits).Success?
      && crypto.createCertificate(SelfSignedTemplate(now1, now2), SelfSignedTemplate(now1, now2),
                                  crypto.generateKey(KeyBits).value).Success?
    ensures certFile in g.created && certFile != keyFile ==>
      g.fs.files[certFile] == Pem(PemBlock(CertificateBlock,
        crypto.createCertificate(SelfSignedTemplate(now1, now2), SelfSignedTemplate(now1, now2),
                                 crypto.generateKey(KeyBits).value).value))
    ensures keyFile in g.created && g.err.None? ==>
      g.fs.files[keyFile] == Pem(PemBlock(KeyBlock, crypto.marshalPkcs1(crypto.generateKey(KeyBits).value)))
  {
    var key := crypto.generateKey(KeyBits);
    if key.Failure? then Generation(fs, [], Some(key.error))
    else
      var template := SelfSignedTemplate(now1, now2);
      var der := crypto.createCertificate(template, template, key.value);
      if der.Failure? then Generation(fs, [], Some(der.error))
      else if certFile in fs.createFails then
        Generation(fs, [], Some(OpenError(certFile, fs.createFails[certFile])))
      else
        var written := WriteFile(fs, certFile, PemBlock(CertificateBlock, der.value));
        if keyFile in fs.createFails then
          Generation(written, [certFile], Some(OpenError(keyFile, fs.createFails[keyFile])))
        else
          Generation(WriteFile(written, keyFile, PemBlock(KeyBlock, crypto.marshalPkcs1(key.value))),
                     [certFile, keyFile], None)
  }

  /** A certificate file that cannot be created stops generation before any
      file is written, in particular before the key file. */
  lemma CertCreateFailureWritesNothing(
    fs: FileSystem, crypto: Crypto, now1: int, now2: int, certFile: string, keyFile: string)
    requires certFile in fs.createFails
    ensures var g := GenerateSelfSignedCert(fs, crypto, now1, now2, certFile, keyFile);
      g.created == [] && g.fs == fs && g.err.Some?
  {
  }

  /** A key file that cannot be created leaves the certificate written and
      no key: the certificate is written first. */
  lemma KeyCreateFailureLeavesCertificate(
    fs: FileSystem, crypto: Crypto, now1: int, now2: int, certFile: string, keyFile: string)
    requires crypto.generateKey(KeyBits).Success?
    requires crypto.createCertificate(SelfSignedTemplate(now1, now2), SelfSignedTemplate(now1, now2),
                                      crypto.generateKey(KeyBits).value).Success?
    requires certFile !in fs.createFails && keyFile in fs.createFails
    ensures var g := GenerateSelfSignedCert(fs, crypto, now1, now2, certFile, keyFile);
      && g.created == [certFile]
      && g.err == Some(OpenError(keyFile, fs.createFails[keyFile]))
      && certFile in g.fs.files && g.fs.files[certFile].block.kind == CertificateBlock
  {
  }

  // ----- initializeCert -----

  const CertVariable := "CRM_TLS_CERT"
  const KeyVariable := "CRM_TLS_KEY"
  const DefaultCertFile := "cert/app-cert.pem"
  const DefaultKeyFile := "cert/app-key.pem"

  function CertPath(env: Environment): string {
    Getenv(env, CertVariable, DefaultCertFile)
  }

  function KeyPath(env: Environment): string {
    Getenv(env, KeyVariable, DefaultKeyFile)
  }

  /** The only two environments that may create their own certificate. */
  predicate SelfSigningEnv(e: string) {
    e == "development" || e == "test"
  }

  /** `tls.LoadX509KeyPair`: the certificate file is read first, then the
      key file; a missing one is an error, otherwise the library parses the
      two contents. */
  function LoadX509KeyPair(fs: FileSystem, crypto: Crypto, certFile: string, keyFile: string)
    : (r: Result<TlsCertificate, string>)
    ensures certFile !in fs.files ==> r == Failure(OpenError(certFile, NoSuchFile))
    ensures certFile in fs.files && keyFile !in fs.files ==> r == Failure(OpenError(keyFile, NoSuchFile))
    ensures certFile in fs.files && keyFile in fs.files ==>
      r == crypto.x509KeyPair(fs.files[certFile], fs.files[keyFile])
    ensures r.Success? ==> certFile in fs.files && keyFile in fs.files
  {
    if certFile !in fs.files then Failure(OpenError(certFile, NoSuchFile))
    else if keyFile !in fs.files then Failure(OpenError(keyFile, NoSuchFile))
    else crypto.x509KeyPair(fs.files[certFile], fs.files[keyFile])
  }

  /** `log.Fatal(err)` on a failed load. */
  function Loaded(r: Result<TlsCertificate, string>): Exit<TlsCertificate> {
    match r
    case Success(cert) => Done(cert)
    case Failure(e) => Fatal(e)
  }

  /** How `initializeCert` ends, the file system after it, and whether it
      called `generateSelfSignedCert`. */
  datatype Provision = Provision(exit: Exit<TlsCertificate>, fs: FileSystem, generated: bool)

  function InitializeCert(conf: Config.Config, env: Environment, fs: FileSystem, crypto: Crypto, now1: int, now2: int)
    : (p: Provision)
    ensures p.generated <==> SelfSigningEnv(conf.env) && Stat(fs, CertPath(env)) == NotExist
    ensures !p.generated ==> p.fs == fs && p.exit == Loaded(LoadX509KeyPair(fs, crypto, CertPath(env), KeyPath(env)))
    ensures p.generated ==>
      var g := GenerateSelfSignedCert(fs, crypto, now1, now2, CertPath(env), KeyPath(env));
      && p.fs == g.fs
      && (g.err.Some? ==> p.exit == Fatal(g.err.value))
      && (g.err.None? ==> p.exit == Loaded(LoadX509KeyPair(g.fs, crypto, CertPath(env), KeyPath(env))))
    ensures !p.exit.Panic?
  {
    var certFile := CertPath(env);
    var keyFile := KeyPath(env);
    if SelfSigningEnv(conf.env) && Stat(fs, certFile) == NotExist then
      var g := GenerateSelfSignedCert(fs, crypto, now1, now2, certFile, keyFile);
      if g.err.Some? then Provision(Fatal(g.err.value), g.fs, true)
      else Provision(Loaded(LoadX509KeyPair(g.fs, crypto, certFile, keyFile)), g.fs, true)
    else
      Provision(Loaded(LoadX509KeyPair(fs, crypto, certFile, keyFile)), fs, false)
  }

  /** A certificate file that exists is never overwritten, and no file is
      written at all. */
  lemma ExistingCertificateKept(
    conf: Config.Config, env: Environment, fs: FileSystem, crypto: Crypto, now1: int, now2: int)
    requires CertPath(env) in fs.files
    ensures var p := InitializeCert(conf, env, fs, crypto, now1, now2);
      !p.generated && p.fs == fs && p.fs.files[CertPath(env)] == fs.files[CertPath(env)]
  {
  }

  /** Outside development and test nothing is generated, so a missing
      certificate file ends the process. */
  lemma MissingCertificateFatalOutsideDevelopment(
    conf: Config.Config, env: Environment, fs: FileSystem, crypto: Crypto, now1: int, now2: int)
    requires !SelfSigningEnv(conf.env)
    requires CertPath(env) !in fs.files
    ensures var p := InitializeCert(conf, env, fs, crypto, now1, now2);
      !p.generated && p.fs == fs && p.exit == Fatal(OpenError(CertPath(env), NoSuchFile))
  {
  }

  /** The default environment of the configuration is one that creates its
      own certificate. */
  lemma DefaultEnvironmentSelfSigns()
    ensures Config.Defaults()["env"] == Config.Str("development")
    ensures SelfSigningEnv("development")
  {
  }

  /** The environment names are matched exactly: "Development" or
      "production" never create a certificate. */
  lemma GateIsExact(
    env: Environment, fs: FileSystem, crypto: Crypto, now1: int, now2: int, c: Config.Config)
    requires c.env == "Development" || c.env == "production" || c.env == ""
    ensures !InitializeCert(c, env, fs, crypto, now1, now2).generated
  {
  }

  /** In development with no certificate and default paths, the process
      loads exactly the pair it has just written: the signed certificate and
      the PKCS #1 key, under their PEM types. */
  lemma DevelopmentRoundTrip(
    conf: Config.Config, env: Environment, fs: FileSystem, crypto: Crypto, now1: int, now2: int)
    requires SelfSigningEnv(conf.env)
    requires CertVariable !in env && KeyVariable !in env
    requires DefaultCertFile !in fs.files && DefaultCertFile !in fs.statFails
    requires DefaultCertFile !in fs.createFails && DefaultKeyFile !in fs.createFails
    requires crypto.generateKey(KeyBits).Success?
    requires crypto.createCertificate(SelfSignedTemplate(now1, now2), SelfSignedTemplate(now1, now2),
                                      crypto.generateKey(KeyBits).value).Success?
    ensures var key := crypto.generateKey(KeyBits).value;
      var der := crypto.createCertificate(SelfSignedTemplate(now1, now2), SelfSignedTemplate(now1, now2), key).value;
      var p := InitializeCert(conf, env, fs, crypto, now1, now2);
      && p.generated
      && p.exit == Loaded(crypto.x509KeyPair(Pem(PemBlock(CertificateBlock, der)),
                                             Pem(PemBlock(KeyBlock, crypto.marshalPkcs1(key)))))
  {
    assert CertPath(env) == DefaultCertFile && KeyPath(env) == DefaultKeyFile;
    assert DefaultCertFile != DefaultKeyFile;
  }
}
