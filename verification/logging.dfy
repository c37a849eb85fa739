/** The logger setup of log.go: the level named by `LOG_LEVEL`, read the way
    logrus's `ParseLevel` reads it, and the formatter named by
    `LOG_FORMATTER`. */
module Logging {
  import opened Outcomes
  import opened Strings
  import opened Env
  import Config

  /** logrus's levels, most severe first. */
  datatype Level = PanicLevel | FatalLevel | ErrorLevel | WarnLevel | InfoLevel | DebugLevel | TraceLevel

  /** The name logrus prints for a level (`Level.String`). */
  function LevelName(l: Level): string {
    match l
    case PanicLevel => "panic"
    case FatalLevel => "fatal"
    case ErrorLevel => "error"
    case WarnLevel => "warning"
    case InfoLevel => "info"
    case DebugLevel => "debug"
    case TraceLevel => "trace"
  }

  /** Go's `unicode.ToLower` as far as a comparison with the lower-case ASCII
      level names can tell: ASCII capitals fold, and so do the two non-ASCII
      runes whose lower case is ASCII, the dotted capital I (U+0130) and the
      Kelvin sign (U+212A). Every other rune is kept; its Go lower case is
      not ASCII either, so no comparison below changes. */
  function FoldRune(c: char): (r: char)
    ensures 'A' <= c <= 'Z' ==> r == LowerChar(c)
    ensures r != c ==> ('A' <= c <= 'Z' || c == '\U{0130}' || c == '\U{212A}')
  {
    if 'A' <= c <= 'Z' then LowerChar(c)
    else if c == '\U{0130}' then 'i'
    else if c == '\U{212A}' then 'k'
    else c
  }

  /** `strings.ToLower`, rune by rune. */
  function Fold(s: string): (r: string)
    ensures |r| == |s|
    ensures forall i :: 0 <= i < |s| ==> r[i] == FoldRune(s[i])
  {
    seq(|s|, i requires 0 <= i < |s| => FoldRune(s[i]))
  }

  const NotALevel := "not a valid logrus Level: "

  /** logrus `ParseLevel`: the lower-cased input against the level names,
      with "warn" accepted beside "warning". */
  function ParseLevel(lvl: string): (r: Result<Level, string>)
    ensures r.Success? <==> Fold(lvl) == "warn" || exists l :: Fold(lvl) == LevelName(l)
    ensures r.Success? ==> Fold(lvl) == LevelName(r.value) || (Fold(lvl) == "warn" && r.value == WarnLevel)
    ensures r.Failure? ==> r.error == NotALevel + "\"" + lvl + "\""
  {
    var folded := Fold(lvl);
    if folded == "panic" then assert folded == LevelName(PanicLevel); Success(PanicLevel)
    else if folded == "fatal" then assert folded == LevelName(FatalLevel); Success(FatalLevel)
    else if folded == "error" then assert folded == LevelName(ErrorLevel); Success(ErrorLevel)
    else if folded == "warn" then Success(WarnLevel)
    else if folded == "warning" then assert folded == LevelName(WarnLevel); Success(WarnLevel)
    else if folded == "info" then assert folded == LevelName(InfoLevel); Success(InfoLevel)
    else if folded == "debug" then assert folded == LevelName(DebugLevel); Success(DebugLevel)
    else if folded == "trace" then assert folded == LevelName(TraceLevel); Success(TraceLevel)
    else
      assert forall l :: folded != LevelName(l);
      Failure(NotALevel + "\"" + lvl + "\"")
  }

  /** Every level's own name parses back to it. */
  lemma ParseLevelName(l: Level)
    ensures ParseLevel(LevelName(l)) == Success(l)
  {
    var name := LevelName(l);
    assert Fold(name) == name;
  }

  /** The level names differ from one another. */
  lemma LevelNamesDistinct(l: Level, m: Level)
    requires LevelName(l) == LevelName(m)
    ensures l == m
  {
    ParseLevelName(l);
    ParseLevelName(m);
  }

  /** Folding twice is folding once. */
  lemma FoldIdempotent(s: string)
    ensures Fold(Fold(s)) == Fold(s)
  {
  }

  /** Upper-casing the input first changes nothing: the parse ignores ASCII
      case entirely. */
  lemma FoldIgnoresUpperCase(s: string)
    ensures Fold(ToUpper(s)) == Fold(s)
  {
    var u := ToUpper(s);
    forall i | 0 <= i < |s|
      ensures FoldRune(u[i]) == FoldRune(s[i])
    {
      var c := s[i];
      if 'a' <= c <= 'z' {
        assert u[i] == UpperChar(c);
        assert LowerChar(UpperChar(c)) == c;
      }
    }
  }

  lemma ParseLevelIgnoresCase(s: string)
    ensures ParseLevel(ToUpper(s)).Success? == ParseLevel(s).Success?
    ensures ParseLevel(s).Success? ==> ParseLevel(ToUpper(s)).value == ParseLevel(s).value
  {
    FoldIgnoresUpperCase(s);
  }

  /** Go's full Unicode fold lets the dotted capital I spell "info". */
  lemma DottedCapitalSpellsInfo()
    ensures ParseLevel("\U{0130}NFO") == Success(InfoLevel)
  {
    assert Fold("\U{0130}NFO") == "info";
  }

  /** An empty level, or one of the usual misspellings, is rejected. */
  lemma RejectedLevels()
    ensures ParseLevel("").Failure?
    ensures ParseLevel("warnings").Failure?
    ensures ParseLevel("information").Failure?
  {
    assert Fold("") == "";
    assert Fold("warnings") == "warnings";
    assert Fold("information") == "information";
  }

  // ---------------------------------------------------------------------
  // initLogging

  const TimestampFormat := "2006-01-02 15:04:05"
  const FormatterVariable := "LOG_FORMATTER"
  const LevelVariable := "LOG_LEVEL"

  datatype Formatter =
    | JsonFormatter(timestampFormat: string)
    | TextFormatter(fullTimestamp: bool, timestampFormat: string)

  /** The settings of the global logger that `initLogging` touches. */
  datatype Logger = Logger(level: Level, formatter: Formatter)

  /** `initLogging` applied to the logger as it was before. */
  function InitLogging(env: Environment, logger: Logger): (r: Logger)
    ensures r.formatter.JsonFormatter? <==> Getenv(env, FormatterVariable, "text") == "json"
    ensures r.formatter.timestampFormat == TimestampFormat
    ensures r.formatter.TextFormatter? ==> r.formatter.fullTimestamp
    ensures ParseLevel(Getenv(env, LevelVariable, "info")).Failure? ==> r.level == logger.level
    ensures ParseLevel(Getenv(env, LevelVariable, "info")).Success? ==>
      r.level == ParseLevel(Getenv(env, LevelVariable, "info")).value
  {
    var formatter := Getenv(env, FormatterVariable, "text");
    var level := Getenv(env, LevelVariable, "info");
    var withLevel :=
      match ParseLevel(level)
      case Success(l) => logger.(level := l)
      case Failure(_) => logger;
    if formatter == "json" then withLevel.(formatter := JsonFormatter(TimestampFormat))
    else withLevel.(formatter := TextFormatter(true, TimestampFormat))
  }

  /** With neither variable set, the logger logs at info level through the
      text formatter with full timestamps. */
  lemma DefaultLogging(env: Environment, logger: Logger)
    requires FormatterVariable !in env && LevelVariable !in env
    ensures InitLogging(env, logger) == Logger(InfoLevel, TextFormatter(true, TimestampFormat))
  {
    ParseLevelName(InfoLevel);
  }

  /** The configuration defaults name the same formatter and level that the
      logger falls back to when its variables are unset. */
  lemma DefaultsMatchLogFallbacks()
    ensures Config.Defaults()["log.formatter"] == Config.Str("text")
    ensures Config.Defaults()["log.level"] == Config.Str("info")
    ensures ParseLevel("info") == Success(InfoLevel)
  {
    ParseLevelName(InfoLevel);
  }

  /** Only the exact string "json" selects the JSON formatter: "JSON" does
      not. */
  lemma JsonIsCaseSensitive(env: Environment, logger: Logger)
    requires env == map[FormatterVariable := "JSON"]
    ensures InitLogging(env, logger).formatter == TextFormatter(true, TimestampFormat)
  {
  }

  /** A level spelled in any case is applied, whatever the logger had. */
  lemma UpperCaseLevelApplies(env: Environment, logger: Logger, l: Level)
    requires LevelVariable in env && env[LevelVariable] == ToUpper(LevelName(l))
    ensures InitLogging(env, logger).level == l
  {
    ParseLevelName(l);
    ParseLevelIgnoresCase(LevelName(l));
  }

  /** Running the setup twice under the same environment is running it once. */
  lemma InitLoggingIdempotent(env: Environment, logger: Logger)
    ensures InitLogging(env, InitLogging(env, logger)) == InitLogging(env, logger)
  {
  }
}
