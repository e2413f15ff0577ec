/** `Application.Start` and `Application.Shutdown`: how the configuration record
    becomes a logger level, the option list handed to the index constructor and
    the address the HTTP server listens on, and how the two shutdown errors are
    combined. The index constructor and the two shutdown calls are collaborators
    whose results are parameters. */
module App {
  import opened Wrappers
  import Log
  import Text
  import Errors

  // ---------------------------------------------------------------------------
  // Configuration record

  datatype LogConfig = LogConfig(level: string)
  datatype FilesystemConfig = FilesystemConfig(root: string)
  datatype CacheConfig = CacheConfig(ttl: int, maxSize: int)
  datatype HttpConfig = HttpConfig(addr: string, port: int)

  datatype Config = Config(
    log: LogConfig,
    filesystem: FilesystemConfig,
    cache: CacheConfig,
    http: HttpConfig)

  // ---------------------------------------------------------------------------
  // Level selection

  /** The lower-case spelling that selects each level. */
  function LevelName(l: Log.LogLevel): string {
    match l
    case None => "none"
    case Error => "error"
    case Warn => "warn"
    case Info => "info"
    case Debug => "debug"
  }

  /** The strings some case of the level `switch` matches. */
  predicate IsLevelSpelling(s: string) {
    s in {"none", "error", "warn", "", "info", "debug"}
  }

  /** The `switch` on the lower-cased level string. The empty string falls
      through to the "info" case; a string no case matches leaves the level
      variable at its zero value. */
  function SelectLevel(lowered: string): (level: Log.LogLevel)
    ensures forall l :: lowered == LevelName(l) ==> level == l
    ensures lowered == "" ==> level == Log.Info
    ensures !IsLevelSpelling(lowered) ==> Log.Code(level) == 0
  {
    Log.ZeroValueIsCodeZero();
    if lowered == "none" then Log.None
    else if lowered == "error" then Log.Error
    else if lowered == "warn" then Log.Warn
    else if lowered == "" || lowered == "info" then Log.Info
    else if lowered == "debug" then Log.Debug
    else Log.ZeroValue
  }

  /** Each level is selected by its own name, Info also by the empty string,
      and the zero-value level Error also by every string no case matches;
      nothing else selects a level. */
  lemma SelectLevelExactly(lowered: string, l: Log.LogLevel)
    ensures SelectLevel(lowered) == l <==>
      || lowered == LevelName(l)
      || (l == Log.Info && lowered == "")
      || (l == Log.ZeroValue && !IsLevelSpelling(lowered))
  {
  }

  /** The level `Start` selects for the configured string: the name of a
      level in any mix of ASCII cases selects it, the empty string selects
      Info, and an ASCII string that spells no case selects the zero value. */
  function ParseLevel(raw: string, lowerRune: char -> char): (level: Log.LogLevel)
    ensures raw == "" ==> level == Log.Info
    ensures Text.LowersAscii(lowerRune) ==>
      forall l :: Text.SameIgnoringAsciiCase(raw, LevelName(l)) ==> level == l
    ensures (&& Text.LowersAscii(lowerRune)
             && (forall i :: 0 <= i < |raw| ==> Text.IsAscii(raw[i]))
             && !IsLevelSpelling(Text.AsciiLowerString(raw)))
            ==> level == Log.ZeroValue
  {
    var lowered := Text.ToLower(raw, lowerRune);
    assert raw == "" ==> lowered == "";
    assert Text.LowersAscii(lowerRune) ==>
      forall l :: Text.SameIgnoringAsciiCase(raw, LevelName(l)) ==> SelectLevel(lowered) == l
    by {
      if Text.LowersAscii(lowerRune) {
        forall l | Text.SameIgnoringAsciiCase(raw, LevelName(l))
          ensures SelectLevel(lowered) == l
        {
          var name := LevelName(l);
          Text.ToLowerIgnoresAsciiCase(raw, name, lowerRune);
          Text.ToLowerOfAscii(name, lowerRune);
          assert Text.AsciiLowerString(name) == name;
        }
      }
    }
    assert Text.LowersAscii(lowerRune) && (forall i :: 0 <= i < |raw| ==> Text.IsAscii(raw[i]))
      ==> lowered == Text.AsciiLowerString(raw)
    by {
      if Text.LowersAscii(lowerRune) && (forall i :: 0 <= i < |raw| ==> Text.IsAscii(raw[i])) {
        Text.ToLowerOfAscii(raw, lowerRune);
      }
    }
    SelectLevel(lowered)
  }

  /** Level selection is case-insensitive over ASCII letters. */
  lemma ParseLevelIgnoresCase(s: string, t: string, lowerRune: char -> char)
    requires Text.LowersAscii(lowerRune)
    requires Text.SameIgnoringAsciiCase(s, t)
    ensures ParseLevel(s, lowerRune) == ParseLevel(t, lowerRune)
  {
    Text.ToLowerIgnoresAsciiCase(s, t, lowerRune);
  }

  /** Every ASCII spelling of a level's name, in any mix of cases, selects it. */
  lemma ParseLevelOfName(raw: string, l: Log.LogLevel, lowerRune: char -> char)
    requires Text.LowersAscii(lowerRune)
    requires Text.SameIgnoringAsciiCase(raw, LevelName(l))
    ensures ParseLevel(raw, lowerRune) == l
  {
  }

  /** An empty level string selects Info. */
  lemma ParseLevelEmpty(lowerRune: char -> char)
    ensures ParseLevel("", lowerRune) == Log.Info
  {
  }

  /** An ASCII level string that is no spelling of a case selects the zero
      value, Error, and not Info. */
  lemma ParseLevelUnrecognised(raw: string, lowerRune: char -> char)
    requires Text.LowersAscii(lowerRune)
    requires forall i :: 0 <= i < |raw| ==> Text.IsAscii(raw[i])
    requires !IsLevelSpelling(Text.AsciiLowerString(raw))
    ensures ParseLevel(raw, lowerRune) == Log.Error
    ensures Log.Code(ParseLevel(raw, lowerRune)) == 0
  {
  }

  // ---------------------------------------------------------------------------
  // Index options

  /** The functional options handed to `index.New`. */
  datatype IndexOption =
    | WithRoot(root: string)
    | WithTTL(ttl: int)
    | WithMaxSize(maxSize: int)
    | WithLogger(logger: Log.Logger)

  /** The position of each kind of option in the list `Start` builds. */
  function Rank(o: IndexOption): nat {
    match o
    case WithRoot(_) => 0
    case WithTTL(_) => 1
    case WithMaxSize(_) => 2
    case WithLogger(_) => 3
  }

  /** The option list: root, TTL and maximum size only when set (non-zero),
      the logger always, in that order. */
  function BuildOptions(cfg: Config, logger: Log.Logger): (opts: seq<IndexOption>)
    ensures 1 <= |opts| <= 4
    ensures opts[|opts| - 1] == WithLogger(logger)
    ensures forall i, j :: 0 <= i < j < |opts| ==> Rank(opts[i]) < Rank(opts[j])
    ensures WithRoot(cfg.filesystem.root) in opts <==> cfg.filesystem.root != ""
    ensures WithTTL(cfg.cache.ttl) in opts <==> cfg.cache.ttl != 0
    ensures WithMaxSize(cfg.cache.maxSize) in opts <==> cfg.cache.maxSize != 0
    ensures forall o :: o in opts ==>
      o in {WithRoot(cfg.filesystem.root), WithTTL(cfg.cache.ttl),
            WithMaxSize(cfg.cache.maxSize), WithLogger(logger)}
  {
    (if cfg.filesystem.root != "" then [WithRoot(cfg.filesystem.root)] else [])
    + (if cfg.cache.ttl != 0 then [WithTTL(cfg.cache.ttl)] else [])
    + (if cfg.cache.maxSize != 0 then [WithMaxSize(cfg.cache.maxSize)] else [])
    + [WithLogger(logger)]
  }

  /** What an option list asks of the index: for each setting the value of the
      last option that sets it, or None when no option does (the index then
      keeps its own default). */
  datatype Settings = Settings(
    root: Option<string>,
    ttl: Option<int>,
    maxSize: Option<int>,
    logger: Option<Log.Logger>)

  function ApplyOption(s: Settings, o: IndexOption): Settings {
    match o
    case WithRoot(root) => s.(root := Some(root))
    case WithTTL(ttl) => s.(ttl := Some(ttl))
    case WithMaxSize(n) => s.(maxSize := Some(n))
    case WithLogger(logger) => s.(logger := Some(logger))
  }

  /** The options applied left to right, the usual reading of functional
      options. Each kind occurs at most once in the list `Start` builds, so the
      order does not change the result. */
  function ApplyOptions(s: Settings, opts: seq<IndexOption>): Settings
    decreases |opts|
  {
    if opts == [] then s else ApplyOptions(ApplyOption(s, opts[0]), opts[1..])
  }

  function Requested(opts: seq<IndexOption>): Settings {
    ApplyOptions(Settings(None, None, None, None), opts)
  }

  /** A zero configuration value means "not set". */
  function NonEmpty(s: string): Option<string> {
    if s == "" then None else Some(s)
  }

  function NonZero(n: int): Option<int> {
    if n == 0 then None else Some(n)
  }

  lemma {:induction false} ApplyOptionsAppend(s: Settings, a: seq<IndexOption>, b: seq<IndexOption>)
    ensures ApplyOptions(s, a + b) == ApplyOptions(ApplyOptions(s, a), b)
    decreases |a|
  {
    if a == [] {
      assert a + b == b;
    } else {
      assert (a + b)[1..] == a[1..] + b;
      ApplyOptionsAppend(ApplyOption(s, a[0]), a[1..], b);
    }
  }

  /** The option list asks for exactly the non-zero settings of the
      configuration, and always for the logger. */
  lemma BuildOptionsRequests(cfg: Config, logger: Log.Logger)
    ensures Requested(BuildOptions(cfg, logger)) ==
      Settings(NonEmpty(cfg.filesystem.root), NonZero(cfg.cache.ttl), NonZero(cfg.cache.maxSize), Some(logger))
  {
    var a := if cfg.filesystem.root != "" then [WithRoot(cfg.filesystem.root)] else [];
    var b := if cfg.cache.ttl != 0 then [WithTTL(cfg.cache.ttl)] else [];
    var c := if cfg.cache.maxSize != 0 then [WithMaxSize(cfg.cache.maxSize)] else [];
    var d := [WithLogger(logger)];
    var s0 := Settings(None, None, None, None);
    var s1 := s0.(root := NonEmpty(cfg.filesystem.root));
    var s2 := s1.(ttl := NonZero(cfg.cache.ttl));
    var s3 := s2.(maxSize := NonZero(cfg.cache.maxSize));
    ApplyOptionsAppend(s0, a, b + (c + d));
    ApplyOptionsAppend(ApplyOptions(s0, a), b, c + d);
    ApplyOptionsAppend(ApplyOptions(ApplyOptions(s0, a), b), c, d);
    assert a + b + c + d == a + (b + (c + d));
    ApplySingle(s0, a, s1);
    ApplySingle(s1, b, s2);
    ApplySingle(s2, c, s3);
    ApplySingle(s3, d, s3.(logger := Some(logger)));
  }

  lemma ApplySingle(s: Settings, opts: seq<IndexOption>, s': Settings)
    requires |opts| <= 1
    requires opts == [] ==> s' == s
    requires |opts| == 1 ==> s' == ApplyOption(s, opts[0])
    ensures ApplyOptions(s, opts) == s'
  {
    if |opts| == 1 {
      assert opts[1..] == [];
    }
  }

  /** Nothing of the filesystem and cache configuration is lost: two
      configurations that produce the same requests agree on root, TTL and
      maximum size. */
  lemma OptionsDetermineConfig(c1: Config, c2: Config, logger: Log.Logger)
    requires Requested(BuildOptions(c1, logger)) == Requested(BuildOptions(c2, logger))
    ensures c1.filesystem == c2.filesystem && c1.cache == c2.cache
  {
    BuildOptionsRequests(c1, logger);
    BuildOptionsRequests(c2, logger);
  }

  // ---------------------------------------------------------------------------
  // Listen address

  const DefaultAddr := "[::]"
  const DefaultPort := 80

  /** The address listened on: the configured one, or all interfaces when empty. */
  function ListenAddr(http: HttpConfig): string {
    if |http.addr| == 0 then DefaultAddr else http.addr
  }

  /** The port listened on: the configured one, or 80 when zero. */
  function ListenPort(http: HttpConfig): int {
    if http.port == 0 then DefaultPort else http.port
  }

  /** `fmt.Sprintf("%s:%d", addr, port)` with the defaults applied. */
  function Listen(http: HttpConfig): (listen: string)
    ensures ParseListen(listen) == Some((ListenAddr(http), ListenPort(http)))
  {
    ListenRoundTrip(ListenAddr(http), ListenPort(http));
    ListenAddr(http) + ":" + Text.FormatInt(ListenPort(http))
  }

  /** Splits a listen string at its last colon into address and port. */
  function ParseListen(listen: string): Option<(string, int)> {
    match Text.LastIndexOf(listen, ':')
    case None => None
    case Some(i) =>
      match Text.ParseInt(listen[i + 1..])
      case None => None
      case Some(port) => Some((listen[..i], port))
  }

  /** The decimal port contains no colon, so the last colon of the listen
      string is the separator even when the address holds colons ("[::]"). */
  lemma ListenRoundTrip(addr: string, port: int)
    ensures ParseListen(addr + ":" + Text.FormatInt(port)) == Some((addr, port))
  {
    var p := Text.FormatInt(port);
    var s := addr + ":" + p;
    assert s[|addr|] == ':';
    forall j | |addr| < j < |s|
      ensures s[j] != ':'
    {
      assert s[j] == p[j - |addr| - 1];
    }
    var k := Text.LastIndexOf(s, ':');
    assert k == Some(|addr|);
    assert s[|addr| + 1..] == p;
    assert s[..|addr|] == addr;
    Text.FormatIntRoundTrip(port);
  }

  /** The configured address and non-zero port pass through unchanged; an
      empty address becomes "[::]" and port 0 becomes 80. */
  lemma ListenDefaults(http: HttpConfig)
    ensures ParseListen(Listen(http)).Some?
    ensures http.addr != "" ==> ParseListen(Listen(http)).value.0 == http.addr
    ensures http.port != 0 ==> ParseListen(Listen(http)).value.1 == http.port
    ensures http.addr == "" ==> ParseListen(Listen(http)).value.0 == "[::]"
    ensures http.port == 0 ==> ParseListen(Listen(http)).value.1 == 80
  {
  }

  /** With neither address nor port configured the server listens on "[::]:80". */
  lemma DefaultListen()
    ensures Listen(HttpConfig("", 0)) == "[::]:80"
  {
    assert Text.FormatInt(80) == "80" by {
      assert Text.NatToDecimal(8) == "8";
    }
  }

  // ---------------------------------------------------------------------------
  // Start

  const StartingFormat := "starting application"
  const ListeningFormat := "listening at http://%s:%d"
  const CreateIndexPrefix := "error creating index: "

  const ShuttingDownFormat := "shutting down application"

  /** The lines `Start` and `Shutdown` write at Info. */
  const StartingLine := "[INFO] starting application"
  const ListeningLine := "[INFO] listening at http://%s:%d"
  const ShuttingDownLine := "[INFO] shutting down application"

  lemma InfoLines()
    ensures Log.Tag(Log.Infof) + StartingFormat == StartingLine
    ensures Log.Tag(Log.Infof) + ListeningFormat == ListeningLine
    ensures Log.Tag(Log.Infof) + ShuttingDownFormat == ShuttingDownLine
  {
  }

  /** The state `Start` leaves behind, with the log lines it wrote. */
  datatype StartOutcome =
    | Listening(logger: Log.Logger, options: seq<IndexOption>, listen: string, written: seq<string>)
    | StartFailed(logger: Log.Logger, options: seq<IndexOption>, err: Errors.Error, written: seq<string>)

  /** The lines a single logger call writes: none or one. */
  function Written(line: Option<string>): seq<string> {
    match line
    case None => []
    case Some(l) => [l]
  }

  /** `Start`, with `index.New` as the parameter `newIndex` (its error or nil)
      and `strings.ToLower`'s rune mapping as `lowerRune`. */
  function Start(
    cfg: Config,
    lowerRune: char -> char,
    newIndex: seq<IndexOption> -> Option<Errors.Error>
  ): (r: StartOutcome)
    ensures r.logger == Log.Simple(ParseLevel(cfg.log.level, lowerRune))
    ensures r.options == BuildOptions(cfg, r.logger)
    ensures r.StartFailed? <==> newIndex(r.options).Some?
    ensures r.StartFailed? ==> r.err.Wrapped? && r.err.cause == newIndex(r.options).value
    ensures r.StartFailed? ==> Errors.Message(r.err) == "error creating index: " + Errors.Message(newIndex(r.options).value)
    ensures r.Listening? ==> ParseListen(r.listen) == Some((ListenAddr(cfg.http), ListenPort(cfg.http)))
    ensures !Log.Writes(r.logger, Log.Infof) ==> r.written == []
    ensures Log.Writes(r.logger, Log.Infof) && r.StartFailed? ==> r.written == [StartingLine]
    ensures Log.Writes(r.logger, Log.Infof) && r.Listening? ==> r.written == [StartingLine, ListeningLine]
  {
    InfoLines();
    var logger := Log.Simple(ParseLevel(cfg.log.level, lowerRune));
    var starting := Written(Log.Output(logger, Log.Infof, StartingFormat));
    var opts := BuildOptions(cfg, logger);
    match newIndex(opts)
    case Some(e) => StartFailed(logger, opts, Errors.Wrapped(CreateIndexPrefix, e), starting)
    case None =>
      Listening(logger, opts, Listen(cfg.http),
                starting + Written(Log.Output(logger, Log.Infof, ListeningFormat)))
  }

  /** `Start` writes log lines exactly when the selected level is Info or
      Debug, so an unrecognised level string (which selects Error) silences
      them. */
  lemma StartLogsAtInfoOrAbove(cfg: Config, lowerRune: char -> char, newIndex: seq<IndexOption> -> Option<Errors.Error>)
    ensures var r := Start(cfg, lowerRune, newIndex);
      |r.written| > 0 <==> r.logger.level == Log.Info || r.logger.level == Log.Debug
  {
    var r := Start(cfg, lowerRune, newIndex);
    Log.InfoWritesAt(r.logger.level);
  }

  // ---------------------------------------------------------------------------
  // Shutdown

  datatype ShutdownOutcome = ShutdownOutcome(err: Option<Errors.Error>, written: seq<string>)

  /** `Shutdown`, with the HTTP server's and the index's shutdown errors as
      parameters: the two are joined, HTTP first. */
  function Shutdown(logger: Log.Logger, httpErr: Option<Errors.Error>, closeErr: Option<Errors.Error>): (r: ShutdownOutcome)
    ensures r.err.None? <==> httpErr.None? && closeErr.None?
    ensures httpErr.Some? && closeErr.None? ==> Errors.Message(r.err.value) == Errors.Message(httpErr.value)
    ensures httpErr.None? && closeErr.Some? ==> Errors.Message(r.err.value) == Errors.Message(closeErr.value)
    ensures httpErr.Some? && closeErr.Some? ==>
      Errors.Message(r.err.value) == Errors.Message(httpErr.value) + "\n" + Errors.Message(closeErr.value)
    ensures r.written == if Log.Writes(logger, Log.Infof) then [ShuttingDownLine] else []
  {
    InfoLines();
    JoinPair(httpErr, closeErr);
    ShutdownOutcome(Errors.Join([httpErr, closeErr]),
                    Written(Log.Output(logger, Log.Infof, ShuttingDownFormat)))
  }

  /** The text of `errors.Join(a, b)` for each combination of nil arguments. */
  lemma JoinPair(httpErr: Option<Errors.Error>, closeErr: Option<Errors.Error>)
    ensures var j := Errors.Join([httpErr, closeErr]);
      && (httpErr.Some? && closeErr.None? ==> Errors.Message(j.value) == Errors.Message(httpErr.value))
      && (httpErr.None? && closeErr.Some? ==> Errors.Message(j.value) == Errors.Message(closeErr.value))
      && (httpErr.Some? && closeErr.Some? ==>
            Errors.Message(j.value) == Errors.Message(httpErr.value) + "\n" + Errors.Message(closeErr.value))
  {
    var errs := [httpErr, closeErr];
    if httpErr.Some? && closeErr.None? {
      Errors.JoinOfOneKeepsMessage([], httpErr.value, [None]);
      assert errs == [] + [httpErr] + [None];
    } else if httpErr.None? && closeErr.Some? {
      Errors.JoinOfOneKeepsMessage([None], closeErr.value, []);
      assert errs == [None] + [closeErr] + [];
    } else if httpErr.Some? && closeErr.Some? {
      JoinOfTwo(httpErr.value, closeErr.value);
    }
  }

  lemma JoinOfTwo(a: Errors.Error, b: Errors.Error)
    ensures Errors.Join([Some(a), Some(b)]) == Some(Errors.Joined([a, b]))
    ensures Errors.Message(Errors.Joined([a, b])) == Errors.Message(a) + "\n" + Errors.Message(b)
  {
    var errs := [Some(a), Some(b)];
    assert errs[1..] == [Some(b)];
    assert [Some(b)][1..] == [];
    assert Errors.NonNil([Some(b)]) == [b];
    assert Errors.NonNil(errs) == [a, b];
    assert [a, b][1..] == [b];
    assert Errors.JoinedMessage([b]) == Errors.Message(b);
    assert Errors.JoinedMessage([a, b]) == Errors.Message(a) + "\n" + Errors.Message(b);
  }
}
