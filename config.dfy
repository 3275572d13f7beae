/**
 * Server configuration: the built-in defaults, the command-line overrides
 * applied on top of them, the log level's text form, and the decision of
 * which TLS configuration to use for the database connection.
 */
module Config {

  import opened Wrappers
  import opened Text

  // ---- log levels ----

  datatype LogLevel = Critical | Error | Warning | Info | Debug | Trace

  /** `LogLevel::to_string`: the level's lower-case name. */
  function LevelName(l: LogLevel): string
  {
    match l
    case Critical => "critical"
    case Error => "error"
    case Warning => "warning"
    case Info => "info"
    case Debug => "debug"
    case Trace => "trace"
  }

  /** `LogLevel::from_str`: exactly the six lower-case names are accepted. */
  function ParseLevel(s: string): (r: Result<LogLevel, string>)
    ensures r.Ok? ==> LevelName(r.value) == s
    ensures r.Err? ==> r.error == "invalid log level"
  {
    match s
    case "critical" => Ok(Critical)
    case "error" => Ok(Error)
    case "warning" => Ok(Warning)
    case "info" => Ok(Info)
    case "debug" => Ok(Debug)
    case "trace" => Ok(Trace)
    case _ => Err("invalid log level")
  }

  /** Printing a level and parsing it back gives the level. */
  lemma LevelRoundTrip(l: LogLevel)
    ensures ParseLevel(LevelName(l)) == Ok(l)
  {
  }

  /** A text is accepted exactly when it is the name of some level. */
  lemma {:induction false} ParseLevelAcceptsNames(s: string)
    ensures ParseLevel(s).Ok? <==> exists l :: LevelName(l) == s
  {
    if ParseLevel(s).Err? {
      forall l ensures LevelName(l) != s {
        LevelRoundTrip(l);
      }
    }
  }

  /** Different levels print differently. */
  lemma LevelNamesDistinct(a: LogLevel, b: LogLevel)
    requires a != b
    ensures LevelName(a) != LevelName(b)
  {
    LevelRoundTrip(a);
    LevelRoundTrip(b);
  }

  // ---- configuration sections and their defaults ----

  /** The largest value of a `u16`. */
  const U16Max := 65535

  type Port = n: nat | n <= U16Max

  datatype TlsConnectMode = Disable | Allow | Prefer | Require | VerifyCa | VerifyFull

  datatype ConfigLog = ConfigLog(level: LogLevel)
  datatype ConfigServer = ConfigServer(host: string, port: Port)
  datatype ConfigMetrics = ConfigMetrics(host: string, port: Port)
  datatype ConfigDatabase = ConfigDatabase(
    user: string, host: string, port: Port, database: string,
    applicationName: string, tlsMode: TlsConnectMode, certificate: Option<string>)
  datatype ConfigCueball = ConfigCueball(maxConnections: nat, claimTimeout: Option<nat>, rebalancerActionDelay: Option<nat>)
  datatype ConfigTokio = ConfigTokio(
    coreThreads: nat, blockingThreads: nat, threadKeepAlive: nat, threadStackSize: nat, threadNamePrefix: string)

  const DefaultLog := ConfigLog(Debug)
  const DefaultServer := ConfigServer("127.0.0.1", 2030)
  const DefaultMetrics := ConfigMetrics("127.0.0.1", 3020)
  const DefaultDatabase := ConfigDatabase("postgres", "127.0.0.1", 2030, "boray", "boray", Disable, None)
  const DefaultCueball := ConfigCueball(10, Some(500), Some(100))
  const DefaultTokio := ConfigTokio(4, 200, 60, 2 * 1024 * 1024, "boray-worker-")

  /** The raw values of the command-line options `read_cli_args` looks at, when given. */
  datatype CliArgs = CliArgs(
    level: Option<string>, address: Option<string>, port: Option<string>,
    pgIp: Option<string>, pgPort: Option<string>, pgDatabase: Option<string>,
    metricsAddress: Option<string>, metricsPort: Option<string>)

  /** `u16::from_str`: decimal digits, optionally after one `+`, of a value that fits. */
  function ParsePort(s: string): (r: Option<Port>)
    ensures r.Some? ==> exists d :: (d == s || "+" + d == s) && ParseNat(d) == Some(r.value as nat)
  {
    var digits := if |s| > 0 && s[0] == '+' then s[1..] else s;
    assert digits == s || "+" + digits == s;
    match ParseNat(digits)
    case Some(n) => if n <= U16Max then Some(n as Port) else None
    case None => None
  }

  /** Every port, printed in decimal, is read back as itself. */
  lemma PortRoundTrip(n: Port)
    ensures ParsePort(NatToString(n)) == Some(n)
  {
    ParseNatToString(n);
    assert NatToString(n)[0] != '+';
  }

  /** A value above the `u16` range is refused, however it is written. */
  lemma {:induction false} PortOutOfRange(n: nat)
    requires n > U16Max
    ensures ParsePort(NatToString(n)).None?
  {
    ParseNatToString(n);
    assert NatToString(n)[0] != '+';
  }

  /** `value_t!` for a port: the option's value when it is given and parses as a `u16`. */
  function GivenPort(arg: Option<string>): Option<Port>
  {
    if arg.Some? then ParsePort(arg.value) else None
  }

  /** `value_t!` for the level: the option's value when it is given and names a level. */
  function GivenLevel(arg: Option<string>): Option<LogLevel>
  {
    if arg.Some? && ParseLevel(arg.value).Ok? then Some(ParseLevel(arg.value).value) else None
  }

  /** The value given, if any, else the current one. */
  function Override<T>(given: Option<T>, current: T): T
  {
    match given
    case Some(v) => v
    case None => current
  }

  /**
   * The whole configuration. It starts from the defaults; a configuration
   * file may replace it, and the command line may then override single
   * fields.
   */
  class Settings {
    var log: ConfigLog
    var server: ConfigServer
    var metrics: ConfigMetrics
    var database: ConfigDatabase
    var cueball: ConfigCueball
    var tokio: ConfigTokio

    /** `Config::default()`. */
    constructor()
      ensures log == ConfigLog(Debug)
      ensures server == ConfigServer("127.0.0.1", 2030) && metrics == ConfigMetrics("127.0.0.1", 3020)
      ensures database == ConfigDatabase("postgres", "127.0.0.1", 2030, "boray", "boray", Disable, None)
      ensures cueball == ConfigCueball(10, Some(500), Some(100))
      ensures tokio == ConfigTokio(4, 200, 60, 2 * 1024 * 1024, "boray-worker-")
    {
      log := DefaultLog;
      server := DefaultServer;
      metrics := DefaultMetrics;
      database := DefaultDatabase;
      cueball := DefaultCueball;
      tokio := DefaultTokio;
    }

    /**
     * `read_cli_args`: each option given on the command line, and for the
     * level and the ports also parsed, replaces its field; every other
     * field keeps its value.
     */
    method ReadCliArgs(args: CliArgs)
      modifies this
      ensures log.level == Override(GivenLevel(args.level), old(log.level))
      ensures server == ConfigServer(Override(args.address, old(server.host)), Override(GivenPort(args.port), old(server.port)))
      ensures database.host == Override(args.pgIp, old(database.host))
      ensures database.port == Override(GivenPort(args.pgPort), old(database.port))
      ensures database.database == Override(args.pgDatabase, old(database.database))
      ensures database.user == old(database.user) && database.applicationName == old(database.applicationName)
      ensures database.tlsMode == old(database.tlsMode) && database.certificate == old(database.certificate)
      ensures metrics == ConfigMetrics(Override(args.metricsAddress, old(metrics.host)), Override(GivenPort(args.metricsPort), old(metrics.port)))
      ensures cueball == old(cueball) && tokio == old(tokio)
    {
      log := log.(level := Override(GivenLevel(args.level), log.level));
      server := server.(host := Override(args.address, server.host));
      server := server.(port := Override(GivenPort(args.port), server.port));
      database := database.(host := Override(args.pgIp, database.host));
      database := database.(port := Override(GivenPort(args.pgPort), database.port));
      database := database.(database := Override(args.pgDatabase, database.database));
      metrics := metrics.(host := Override(args.metricsAddress, metrics.host));
      metrics := metrics.(port := Override(GivenPort(args.metricsPort), metrics.port));
    }
  }

  // ---- TLS ----

  /** A certificate, as the bytes it was read from. */
  type Certificate = seq<bv8>

  datatype TlsError = NoCertificate | CertError(reason: string) | IOError(reason: string)

  /** The text of a TLS error. */
  function TlsErrorText(e: TlsError): string
  {
    match e
    case NoCertificate => "no TLS certificate file given"
    case CertError(reason) => reason
    case IOError(reason) => reason
  }

  datatype TlsConfig =
    | TlsDisabled
    | TlsAllow(allowCert: Option<Certificate>)
    | TlsPrefer(preferCert: Option<Certificate>)
    | TlsRequire(cert: Certificate)
    | TlsVerifyCa(cert: Certificate)
    | TlsVerifyFull(cert: Certificate)

  /**
   * `maybe_read_certificate`: no path means no certificate; otherwise
   * `load` stands for opening, reading and parsing the file.
   */
  function MaybeReadCertificate(path: Option<string>, load: string -> Result<Certificate, TlsError>)
    : (r: Result<Certificate, TlsError>)
    ensures path.None? ==> r == Err(NoCertificate)
    ensures path.Some? ==> r == load(path.value)
  {
    match path
    case None => Err(NoCertificate)
    case Some(p) => load(p)
  }

  /**
   * `tls_config`: the configuration for a mode, given what reading the
   * certificate gave. The modes that demand a certificate fail with the
   * certificate's error.
   */
  function TlsConfigFor(mode: TlsConnectMode, certResult: Result<Certificate, TlsError>): (r: Result<TlsConfig, TlsError>)
    ensures mode == Disable ==> r == Ok(TlsDisabled)
    ensures mode == Allow ==> r == Ok(TlsAllow(if certResult.Ok? then Some(certResult.value) else None))
    ensures mode == Prefer ==> r == Ok(TlsPrefer(if certResult.Ok? then Some(certResult.value) else None))
    ensures mode in {Require, VerifyCa, VerifyFull} ==>
      (r.Ok? <==> certResult.Ok?) && (r.Err? ==> r.error == certResult.error)
    ensures certResult.Ok? && mode == Require ==> r == Ok(TlsRequire(certResult.value))
    ensures certResult.Ok? && mode == VerifyCa ==> r == Ok(TlsVerifyCa(certResult.value))
    ensures certResult.Ok? && mode == VerifyFull ==> r == Ok(TlsVerifyFull(certResult.value))
  {
    var certOption := match certResult case Ok(c) => Some(c) case Err(_) => None;
    match mode
    case Disable => Ok(TlsDisabled)
    case Allow => Ok(TlsAllow(certOption))
    case Prefer => Ok(TlsPrefer(certOption))
    case Require =>
      if certResult.Ok? then Ok(TlsRequire(certResult.value)) else Err(certResult.error)
    case VerifyCa =>
      if certResult.Ok? then Ok(TlsVerifyCa(certResult.value)) else Err(certResult.error)
    case VerifyFull =>
      if certResult.Ok? then Ok(TlsVerifyFull(certResult.value)) else Err(certResult.error)
  }

  /** The whole TLS decision: read the certificate, then choose by mode. */
  function TlsConfigOf(mode: TlsConnectMode, path: Option<string>, load: string -> Result<Certificate, TlsError>)
    : Result<TlsConfig, TlsError>
  {
    TlsConfigFor(mode, MaybeReadCertificate(path, load))
  }

  /**
   * Without a certificate path, only the modes that can do without a
   * certificate succeed, and the others report that none was given.
   */
  lemma {:induction false} NoPathDecision(mode: TlsConnectMode, load: string -> Result<Certificate, TlsError>)
    ensures TlsConfigOf(mode, None, load).Ok? <==> mode in {Disable, Allow, Prefer}
    ensures mode in {Require, VerifyCa, VerifyFull} ==> TlsConfigOf(mode, None, load) == Err(NoCertificate)
    ensures mode == Allow ==> TlsConfigOf(mode, None, load) == Ok(TlsAllow(None))
  {
    assert MaybeReadCertificate(None, load) == Err(NoCertificate);
  }
}
