/** The levelled logger of package `log`: a closed severity enumeration, the
    four printf-style methods of `SimpleLogger` with their threshold checks, and
    `DiscardLogger`, which never writes. What is modelled is the decision to
    write and the text handed to the output sink, not the sink itself. */
module Log {
  import Wrappers

  /** The five named severities. In the source they are the integer constants
      `None = -1` (`iota - 1`), `Error = 0`, `Warn = 1`, `Info = 2`, `Debug = 3`. */
  datatype LogLevel = None | Error | Warn | Info | Debug

  /** The integer each named severity stands for. */
  function Code(l: LogLevel): (c: int)
    ensures -1 <= c <= 3
  {
    match l
    case None => -1
    case Error => 0
    case Warn => 1
    case Info => 2
    case Debug => 3
  }

  /** The named severity an integer stands for, if any. */
  function FromCode(c: int): (r: Wrappers.Option<LogLevel>)
    ensures r.Some? ==> Code(r.value) == c
    ensures r.None? <==> c < -1 || 3 < c
  {
    if c == -1 then Wrappers.Some(None)
    else if c == 0 then Wrappers.Some(Error)
    else if c == 1 then Wrappers.Some(Warn)
    else if c == 2 then Wrappers.Some(Info)
    else if c == 3 then Wrappers.Some(Debug)
    else Wrappers.None
  }

  /** Distinct severities have distinct codes, so `FromCode` undoes `Code`. */
  lemma CodeRoundTrip(l: LogLevel)
    ensures FromCode(Code(l)) == Wrappers.Some(l)
  {
  }

  /** The value a `LogLevel` variable holds before anything is assigned to it:
      Go's zero value, the integer 0. */
  const ZeroValue: LogLevel := Error

  lemma ZeroValueIsCodeZero()
    ensures Code(ZeroValue) == 0
    ensures FromCode(0) == Wrappers.Some(ZeroValue)
  {
  }

  /** `l >= threshold` on the underlying integers. */
  predicate AtLeast(l: LogLevel, threshold: LogLevel) {
    Code(l) >= Code(threshold)
  }

  /** The severities form the chain None < Error < Warn < Info < Debug. */
  lemma LevelChain()
    ensures Code(None) == -1 && Code(Error) == 0
    ensures Code(None) < Code(Error) < Code(Warn) < Code(Info) < Code(Debug)
  {
  }

  /** `AtLeast` is a total order on the five severities. */
  lemma AtLeastIsTotalOrder()
    ensures forall l :: AtLeast(l, l)
    ensures forall l, m :: AtLeast(l, m) && AtLeast(m, l) ==> l == m
    ensures forall l, m, n :: AtLeast(l, m) && AtLeast(m, n) ==> AtLeast(l, n)
    ensures forall l, m :: AtLeast(l, m) || AtLeast(m, l)
  {
    forall l, m | AtLeast(l, m) && AtLeast(m, l)
      ensures l == m
    {
      CodeRoundTrip(l);
      CodeRoundTrip(m);
    }
  }

  /** The four methods of the `Logger` interface. */
  datatype Method = Debugf | Infof | Warnf | Errorf

  /** The configured level a method needs before it writes. */
  function Threshold(m: Method): LogLevel {
    match m
    case Debugf => Debug
    case Infof => Info
    case Warnf => Warn
    case Errorf => Error
  }

  /** The fixed tag a method prepends to its format string. */
  function Tag(m: Method): string {
    match m
    case Debugf => "[DEBUG] "
    case Infof => "[INFO] "
    case Warnf => "[WARN] "
    case Errorf => "[ERROR] "
  }

  /** The two `Logger` implementations. */
  datatype Logger = Simple(level: LogLevel) | Discard

  /** Whether a call of method `m` on `logger` reaches the output sink: only a
      `SimpleLogger` writes, and only the methods its level enables. */
  function Writes(logger: Logger, m: Method): (w: bool)
    ensures w <==> logger.Simple? && m in EnabledAt(logger.level)
  {
    match logger
    case Simple(level) => AtLeast(level, Threshold(m))
    case Discard => false
  }

  /** The text a call `m(format, ...)` hands to the output sink, if any. */
  function Output(logger: Logger, m: Method, format: string): (line: Wrappers.Option<string>)
    ensures line.Some? <==> Writes(logger, m)
    ensures line.Some? ==> StripTag(line.value) == Wrappers.Some((m, format))
  {
    TagIsRecognised(m, format);
    if Writes(logger, m) then Wrappers.Some(Tag(m) + format) else Wrappers.None
  }

  /** Reads an output line back into the method that wrote it and the format it
      was given, by recognising the tag at its start. */
  function StripTag(line: string): Wrappers.Option<(Method, string)> {
    if HasPrefix(line, Tag(Debugf)) then Wrappers.Some((Debugf, line[|Tag(Debugf)|..]))
    else if HasPrefix(line, Tag(Infof)) then Wrappers.Some((Infof, line[|Tag(Infof)|..]))
    else if HasPrefix(line, Tag(Warnf)) then Wrappers.Some((Warnf, line[|Tag(Warnf)|..]))
    else if HasPrefix(line, Tag(Errorf)) then Wrappers.Some((Errorf, line[|Tag(Errorf)|..]))
    else Wrappers.None
  }

  predicate HasPrefix(s: string, p: string) {
    |p| <= |s| && s[..|p|] == p
  }

  /** No tag is a prefix of a line written under another tag, so the tag
      identifies the method and the rest of the line is the unchanged format. */
  lemma TagIsRecognised(m: Method, format: string)
    ensures StripTag(Tag(m) + format) == Wrappers.Some((m, format))
  {
    var line := Tag(m) + format;
    assert line[..|Tag(m)|] == Tag(m);
    assert line[|Tag(m)|..] == format;
    // each earlier tag differs from this line in its first two characters
    if m != Debugf {
      assert line[1] != Tag(Debugf)[1];
    }
    if m != Debugf && m != Infof {
      assert line[1] != Tag(Infof)[1];
    }
    if m == Errorf {
      assert line[1] != Tag(Warnf)[1];
    }
  }

  /** The methods that write at each configured level, listed independently of
      the threshold comparison. */
  function EnabledAt(l: LogLevel): set<Method> {
    match l
    case None => {}
    case Error => {Errorf}
    case Warn => {Errorf, Warnf}
    case Info => {Errorf, Warnf, Infof}
    case Debug => {Errorf, Warnf, Infof, Debugf}
  }

  /** Each method writes exactly at the levels at or above its threshold:
      `Debugf` only at Debug, `Infof` at Info and Debug, `Warnf` at Warn and
      above, `Errorf` at every level but None. */
  lemma WritesMatchesTable(l: LogLevel, m: Method)
    ensures Writes(Simple(l), m) <==> m in EnabledAt(l)
  {
  }

  /** `Infof` writes at Info and Debug only. */
  lemma InfoWritesAt(l: LogLevel)
    ensures Writes(Simple(l), Infof) <==> l == Info || l == Debug
  {
  }

  /** Raising the configured level never silences a method. */
  lemma WritesIsMonotone(l: LogLevel, l': LogLevel, m: Method)
    requires AtLeast(l', l)
    requires Writes(Simple(l), m)
    ensures Writes(Simple(l'), m)
  {
  }

  /** Level None writes nothing; level Debug lets all four methods write. */
  lemma ExtremeLevels(m: Method, format: string)
    ensures Output(Simple(None), m, format).None?
    ensures Output(Simple(Debug), m, format) == Wrappers.Some(Tag(m) + format)
  {
  }

  /** `DiscardLogger` writes nothing, whatever the method and format. */
  lemma DiscardWritesNothing(m: Method, format: string)
    ensures Output(Discard, m, format).None?
  {
  }
}
