/**
 * The AppLogger object of js/logger.js: logging settings that its setters
 * change in place, a severity gate on each logging method, and masking of
 * the message before it reaches the console. The console is the `output`
 * field, the sequence of console calls made so far.
 */
module AppLogging {
  import opened JsRuntime
  import Masking

  /** The keys of LogLevels. */
  datatype Level = Debug | Info | Warn | Error

  /** LogLevels[level]. */
  function Rank(l: Level): nat
  {
    match l
    case Debug => 0
    case Info => 1
    case Warn => 2
    case Error => 3
  }

  function LevelName(l: Level): string
  {
    match l
    case Debug => "debug"
    case Info => "info"
    case Warn => "warn"
    case Error => "error"
  }

  /** `LogLevels.hasOwnProperty(name)`, giving the level that name stands for. */
  function ParseLevel(name: string): (r: Option<Level>)
    ensures r.Some? ==> LevelName(r.value) == name
    ensures r.None? ==> forall l :: LevelName(l) != name
  {
    if name == "debug" then Some(Level.Debug)
    else if name == "info" then Some(Level.Info)
    else if name == "warn" then Some(Level.Warn)
    else if name == "error" then Some(Level.Error)
    else None
  }

  /** The five fields of LoggingSettings, as one value. */
  datatype Settings = Settings(
    enabled: bool,
    maskSensitiveData: bool,
    logToServer: bool,
    errorLoggingEnabled: bool,
    logLevel: Level)

  const InitialSettings := Settings(false, true, false, true, Level.Info)

  /** The argument every logging method puts in front of the message. */
  const Prefix := "[PDF Learner]"

  /** The level each level-gated method compares against; `log` uses the debug level. */
  function Threshold(ch: Channel): Level
    requires ch != Channel.Error
  {
    match ch
    case Log => Level.Debug
    case Debug => Level.Debug
    case Info => Level.Info
    case Warn => Level.Warn
  }

  /** Whether the logging method writing to `ch` reaches the console under `s`. */
  predicate Emits(s: Settings, ch: Channel)
  {
    s.enabled &&
    if ch == Channel.Error then s.errorLoggingEnabled
    else Rank(s.logLevel) <= Rank(Threshold(ch))
  }

  /** The message as it is handed to the console. */
  function Rendered(s: Settings, message: string): string
  {
    if s.maskSensitiveData then Masking.MaskString(message) else message
  }

  /**
   * The console calls one logging call makes: none, or one call on `ch` with
   * the prefix, the rendered message and then the remaining arguments.
   */
  function Emitted(s: Settings, ch: Channel, message: string, rest: seq<Value>): seq<Entry>
  {
    if Emits(s, ch) then [Entry(ch, [Str(Prefix), Str(Rendered(s, message))] + rest)] else []
  }

  /** The shape of every console call AppLogger makes: the prefix, then the message. */
  predicate PrefixedCall(e: Entry)
  {
    |e.args| >= 2 && e.args[0] == Str(Prefix) && e.args[1].Str?
  }

  class AppLogger {
    var enabled: bool
    var maskSensitiveData: bool
    var logToServer: bool
    var errorLoggingEnabled: bool
    var logLevel: Level
    /** The console calls made so far. */
    var output: seq<Entry>

    /** Every call on the console so far came from one of the logging methods. */
    ghost predicate Valid()
      reads this
    {
      forall e | e in output :: PrefixedCall(e)
    }

    function Current(): Settings
      reads this
    {
      Settings(enabled, maskSensitiveData, logToServer, errorLoggingEnabled, logLevel)
    }

    constructor ()
      ensures Valid()
      ensures Current() == InitialSettings
      ensures output == []
    {
      enabled := false;
      maskSensitiveData := true;
      logToServer := false;
      errorLoggingEnabled := true;
      logLevel := Level.Info;
      output := [];
    }

    method EnableLogs(flag: Value)
      requires Valid()
      modifies this
      ensures Valid()
      ensures Current() == old(Current()).(enabled := ToBoolean(flag))
      ensures output == old(output)
    {
      enabled := ToBoolean(flag);
    }

    method SetLogLevel(name: string)
      requires Valid()
      modifies this
      ensures Valid()
      ensures ParseLevel(name).Some? ==> Current() == old(Current()).(logLevel := ParseLevel(name).value)
      ensures ParseLevel(name).None? ==> Current() == old(Current())
      ensures output == old(output)
    {
      var level := ParseLevel(name);
      if level.Some? {
        logLevel := level.value;
      }
    }

    method SetMaskSensitiveData(flag: Value)
      requires Valid()
      modifies this
      ensures Valid()
      ensures Current() == old(Current()).(maskSensitiveData := ToBoolean(flag))
      ensures output == old(output)
    {
      maskSensitiveData := ToBoolean(flag);
    }

    method EnableServerLogging(flag: Value)
      requires Valid()
      modifies this
      ensures Valid()
      ensures Current() == old(Current()).(logToServer := ToBoolean(flag))
      ensures output == old(output)
    {
      logToServer := ToBoolean(flag);
    }

    method Log(message: string, args: seq<Value>)
      requires Valid()
      modifies this`output
      ensures Valid()
      ensures output == old(output) + Emitted(Current(), Channel.Log, message, args)
    {
      if !enabled || Rank(logLevel) > Rank(Level.Debug) {
        return;
      }
      var logMessage := message;
      if maskSensitiveData {
        logMessage := Masking.MaskString(message);
      }
      output := output + [Entry(Channel.Log, [Str(Prefix), Str(logMessage)] + args)];
    }

    method Debug(message: string, args: seq<Value>)
      requires Valid()
      modifies this`output
      ensures Valid()
      ensures output == old(output) + Emitted(Current(), Channel.Debug, message, args)
    {
      if !enabled || Rank(logLevel) > Rank(Level.Debug) {
        return;
      }
      var logMessage := message;
      if maskSensitiveData {
        logMessage := Masking.MaskString(message);
      }
      output := output + [Entry(Channel.Debug, [Str(Prefix), Str(logMessage)] + args)];
    }

    method Info(message: string, args: seq<Value>)
      requires Valid()
      modifies this`output
      ensures Valid()
      ensures output == old(output) + Emitted(Current(), Channel.Info, message, args)
    {
      if !enabled || Rank(logLevel) > Rank(Level.Info) {
        return;
      }
      var logMessage := message;
      if maskSensitiveData {
        logMessage := Masking.MaskString(message);
      }
      output := output + [Entry(Channel.Info, [Str(Prefix), Str(logMessage)] + args)];
    }

    method Warn(message: string, args: seq<Value>)
      requires Valid()
      modifies this`output
      ensures Valid()
      ensures output == old(output) + Emitted(Current(), Channel.Warn, message, args)
    {
      if !enabled || Rank(logLevel) > Rank(Level.Warn) {
        return;
      }
      var logMessage := message;
      if maskSensitiveData {
        logMessage := Masking.MaskString(message);
      }
      output := output + [Entry(Channel.Warn, [Str(Prefix), Str(logMessage)] + args)];
    }

    /** `error(message, error, ...args)`: the error object travels right after the message. */
    method Error(message: string, error: Value, args: seq<Value>)
      requires Valid()
      modifies this`output
      ensures Valid()
      ensures output == old(output) + Emitted(Current(), Channel.Error, message, [error] + args)
    {
      if !enabled || !errorLoggingEnabled {
        return;
      }
      var logMessage := message;
      if maskSensitiveData {
        logMessage := Masking.MaskString(message);
      }
      var call := [Str(Prefix), Str(logMessage), error] + args;
      assert call == [Str(Prefix), Str(logMessage)] + ([error] + args);
      output := output + [Entry(Channel.Error, call)];
      // the branch taken when logToServer is set is empty in the source
    }
  }

  // ---------------------------------------------------------------------
  // Properties of the gate

  lemma EmittedArePrefixed(s: Settings, ch: Channel, message: string, rest: seq<Value>)
    ensures forall e | e in Emitted(s, ch, message, rest) :: PrefixedCall(e) && e.channel == ch
  {
  }

  /** Level names and levels correspond one to one. */
  lemma ParseLevelRoundTrip(l: Level, name: string)
    ensures ParseLevel(LevelName(l)) == Some(l)
    ensures ParseLevel(name) == Some(l) <==> name == LevelName(l)
  {
  }

  /** A fresh logger writes nothing, whatever is logged. */
  lemma InitiallySilent(ch: Channel, message: string, rest: seq<Value>)
    ensures Emitted(InitialSettings, ch, message, rest) == []
  {
  }

  lemma DisabledIsSilent(s: Settings, ch: Channel, message: string, rest: seq<Value>)
    requires !s.enabled
    ensures Emitted(s, ch, message, rest) == []
  {
  }

  /** Under fixed settings, a method that emits implies every more severe one emits. */
  lemma SeverityMonotone(s: Settings, lower: Channel, higher: Channel)
    requires lower != Channel.Error && higher != Channel.Error
    requires Rank(Threshold(lower)) <= Rank(Threshold(higher))
    requires Emits(s, lower)
    ensures Emits(s, higher)
  {
  }

  /** Lowering the configured level never silences a method. */
  lemma LowerLevelEmitsMore(s: Settings, ch: Channel, low: Level, high: Level)
    requires Rank(low) <= Rank(high)
    requires Emits(s.(logLevel := high), ch)
    ensures Emits(s.(logLevel := low), ch)
  {
  }

  /** `log` passes the gate exactly when `debug` does: only at the debug level. */
  lemma LogGatedAsDebug(s: Settings)
    ensures Emits(s, Channel.Log) == Emits(s, Channel.Debug)
    ensures Emits(s, Channel.Log) <==> s.enabled && s.logLevel == Level.Debug
  {
  }

  lemma ErrorIgnoresLevel(s: Settings, l: Level)
    ensures Emits(s.(logLevel := l), Channel.Error) == Emits(s, Channel.Error)
    ensures Emits(s, Channel.Error) == (s.enabled && s.errorLoggingEnabled)
  {
  }

  lemma ServerLoggingIsInert(s: Settings, b: bool, ch: Channel, message: string, rest: seq<Value>)
    ensures Emitted(s.(logToServer := b), ch, message, rest) == Emitted(s, ch, message, rest)
  {
  }

  // ---------------------------------------------------------------------
  // Properties of the emitted message

  /** With masking on, the message that reaches the console carries no long token. */
  lemma MaskedMessageIsSafe(s: Settings, ch: Channel, message: string, rest: seq<Value>)
    requires s.maskSensitiveData
    ensures forall e | e in Emitted(s, ch, message, rest) ::
      |e.args| >= 2 && e.args[1] == Str(Masking.MaskString(message))
      && Masking.NoLongRun(e.args[1].s, Masking.KeyChar, 30)
      && Masking.NoLongRun(e.args[1].s, Masking.Alnum, 20)
  {
    Masking.MaskLeavesNoLongRuns(message);
  }

  /** With masking off, the message is passed on as it is; the other arguments always are. */
  lemma UnmaskedMessageVerbatim(s: Settings, ch: Channel, message: string, rest: seq<Value>)
    requires Emits(s, ch)
    ensures |Emitted(s, ch, message, rest)| == 1
    ensures Emitted(s, ch, message, rest)[0].args[2..] == rest
    ensures !s.maskSensitiveData ==> Emitted(s, ch, message, rest)[0].args[1] == Str(message)
  {
  }
}
