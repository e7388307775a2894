# PDF Learner browser logging, modelled in Dafny

PDF Learner ships two small logging scripts for its browser build.

- `js/logger.js` defines `window.AppLogger`. It holds a settings object, `LoggingSettings`, that its setters change in place. It has four level-gated methods (`log`, `debug`, `info`, `warn`) and an `error` method with its own switch. With masking on, every message goes through `maskSensitiveInfo`: three global regular-expression replacements that hide API keys, e-mail addresses and Firebase UIDs.
- `web/js/logger.js` replaces the five `console` methods with wrappers. A wrapper drops a call when some string argument, or the JSON text of some object argument, contains one of 22 fixed substrings. Otherwise it passes the call on, unchanged, to the saved original method.

The Dafny project has five modules:

- `JsRuntime` (`js_runtime.dfy`). JavaScript values as the scripts see them. `Str` is a string. `Obj` is a non-null object, carrying its `JSON.stringify` text or `None` when that fails. `Scalar` is any other value, carrying only its truthiness. The module also holds `!!` coercion, `String.prototype.includes`, and the console call record `Entry`.
- `Masking` (`masking.dfy`). `maskSensitiveInfo` as a pure function. Each pass follows how `String.prototype.replace` runs a `/g` regex: find the leftmost position where the pattern matches, replace that match, and resume the search after it. The run patterns use a greedy matcher. The e-mail pattern uses a literal transcription of the engine's backtracking over its first two quantifiers. That matcher is proved equal to a declarative reading (`EmailSpec`). The main theorem, `MaskLeavesNoLongRuns`, says that no 30 consecutive `[A-Za-z0-9_-]` characters and no 20 consecutive `[a-zA-Z0-9]` characters survive masking. This holds because each marker begins and ends with `*`, so a marker cannot join the runs on either side of it.
- `AppLogging` (`app_logger.dfy`). The `AppLogger` class has the five settings fields and an `output` field: the console calls made so far. Its methods are transcribed from the source. Each one is specified against the pure functions `Emits` (the gate) and `Emitted` (what one call writes). Lemmas state the gate's properties.
- `ConsoleFilter` (`console_filter.dfy`). `filterPatterns` and the pure predicate `Filtered` (some argument matches). `ShouldFilterLog` is the source's loop with its early return, proved equal to `Filtered`. The class `FilteredConsole` models the installed wrappers. Its invariant ties the calls that reach the original console to the reference function `Forwarded` of all calls made.
- `LoggerInterplay` (`interplay.dfy`). Every call AppLogger makes starts with the argument `"[PDF Learner]"`, and that string is one of the filter's patterns. So while the filter is installed, nothing AppLogger writes reaches the original console.

Two behaviours of the code are modelled exactly as written:

- `log` is gated at the debug rank, like `debug`. At the default level `'info'` it writes nothing.
- `error` ignores `logLevel`. `logToServer` changes nothing that is written.

## Model

| member | source | states |
|---|---|---|
| Masking.RunEnd | js/logger.js:13 | the result ends the maximal run of class characters from `p`: every character before it is in the class, and the character at it is not (or the string ends) |
| Masking.MatchRunIffRunAt | js/logger.js:13-19 | the greedy `{30,}` / `{20,}` matcher succeeds at `p` exactly when at least that many class characters start at `p` |
| Masking.MatchEmail | js/logger.js:16 | a match of the e-mail pattern is non-empty and ends inside the string |
| Masking.MatchEmailIsSpec | js/logger.js:16 | the backtracking matcher equals the declarative reading: the run from `p` is followed by `@`, the run after the `@` has a `.` with a character on each side, and the match ends where that run ends |
| Masking.NoAtSignNoEmail | js/logger.js:16 | without an `@` the e-mail pattern matches nowhere |
| Masking.FindMatch | js/logger.js:13-19 | the search returns the leftmost match at or after `from`; no position before it matches, and a `None` means no position matches at all |
| Masking.NoMatchNoChange | js/logger.js:13-19 | a pass over text where its pattern matches nowhere returns the text unchanged |
| Masking.MaskSensitiveInfo | js/logger.js:9-22 | a non-string is returned as it is; a string (the empty one included) becomes the result of the three passes in order |
| Masking.NoLongRunJoin | js/logger.js:13-19 | a marker that starts and ends with a non-class character cannot join the runs beside it into a long run |
| Masking.GapHasNoLongRun | js/logger.js:13 | text that the leftmost search skipped holds no run of the pattern's class as long as the pattern's bound |
| Masking.RunPassRemovesRuns | js/logger.js:13 | after the API-key pass (or the UID pass) no run of its class reaches its bound, whatever the input |
| Masking.PassPreservesNoLongRun | js/logger.js:16-19 | a pass whose marker has no long run of a class cannot create one |
| Masking.MaskLeavesNoLongRuns | js/logger.js:9-22 | after masking, no 30 consecutive `[A-Za-z0-9_-]` and no 20 consecutive `[a-zA-Z0-9]` characters remain |
| Masking.RunPassIdentity | js/logger.js:13 | the API-key or UID pass leaves text without a long run of its class unchanged |
| Masking.RunPassIdempotent | js/logger.js:13 | running a run pass twice gives the same text as running it once |
| Masking.WholeMatchIsMarker | js/logger.js:13-19 | a match that covers the whole string leaves exactly the marker |
| Masking.EmailPassNeedsAtSign | js/logger.js:16 | the e-mail pass leaves text without `@` unchanged |
| Masking.LastPassesKeep | js/logger.js:16-19 | text without `@` and without 20 consecutive letters or digits passes the last two passes unchanged |
| Masking.ApiKeyMarkerSurvives | js/logger.js:13-19 | the later passes leave the API-key marker as it is |
| Masking.ApiKeyTokenMasked | js/logger.js:9-22 | a string made of one token of 30 or more API-key characters masks to `***_API_KEY_MASKED_***` |
| Masking.EmailAddressMasked | js/logger.js:9-22 | a string that is one e-mail address with no 30-character key run masks to `***@***` |
| AppLogging.ParseLevel | js/logger.js:34-39 | `Some(l)` only for the name of `l`, and `None` for every string that names no level |
| AppLogging.ParseLevelRoundTrip | js/logger.js:49-53 | level names and levels correspond one to one |
| AppLogging.AppLogger.constructor | js/logger.js:25-31 | logging off, masking on, server logging off, error logging on, level info; nothing written |
| AppLogging.AppLogger.EnableLogs | js/logger.js:44-46 | sets `enabled` to `!!flag`; every other setting and the output are unchanged |
| AppLogging.AppLogger.SetLogLevel | js/logger.js:49-53 | sets the level when the name is one of the four level names; otherwise nothing changes |
| AppLogging.AppLogger.SetMaskSensitiveData | js/logger.js:56-58 | sets `maskSensitiveData` to `!!flag`; every other setting and the output are unchanged |
| AppLogging.AppLogger.EnableServerLogging | js/logger.js:126-128 | sets `logToServer` to `!!flag`; every other setting and the output are unchanged |
| AppLogging.AppLogger.Log | js/logger.js:61-70 | appends exactly what `Emitted` gives for the log channel under the current settings; keeps the prefix invariant |
| AppLogging.AppLogger.Debug | js/logger.js:73-82 | appends exactly what `Emitted` gives for the debug channel |
| AppLogging.AppLogger.Info | js/logger.js:85-94 | appends exactly what `Emitted` gives for the info channel |
| AppLogging.AppLogger.Warn | js/logger.js:97-106 | appends exactly what `Emitted` gives for the warn channel |
| AppLogging.AppLogger.Error | js/logger.js:109-123 | appends exactly what `Emitted` gives for the error channel, with the error object right after the message |
| AppLogging.EmittedArePrefixed | js/logger.js:69 | every call written has `"[PDF Learner]"` first, then the message as a string, on the method's own channel |
| AppLogging.InitiallySilent | js/logger.js:25-31 | under the initial settings no method writes anything |
| AppLogging.DisabledIsSilent | js/logger.js:62-110 | while logging is disabled no method writes anything |
| AppLogging.SeverityMonotone | js/logger.js:34-39 | under fixed settings, if a less severe method writes then every more severe level-gated method writes too |
| AppLogging.LowerLevelEmitsMore | js/logger.js:62-98 | lowering the configured level never silences a method |
| AppLogging.LogGatedAsDebug | js/logger.js:62 | `log` writes exactly when `debug` does: when logging is on and the level is debug |
| AppLogging.ErrorIgnoresLevel | js/logger.js:110 | `error` writes iff logging is on and error logging is on, whatever the level |
| AppLogging.ServerLoggingIsInert | js/logger.js:120-122 | `logToServer` has no effect on what is written |
| AppLogging.MaskedMessageIsSafe | js/logger.js:64-67 | with masking on, the written message is `maskSensitiveInfo(message)` and carries no long key or UID run |
| AppLogging.UnmaskedMessageVerbatim | js/logger.js:64-69 | a call that passes the gate writes exactly one call; the remaining arguments follow the message unchanged; with masking off the message is the raw one |
| ConsoleFilter.ShouldFilterLog | web/js/logger.js:46-70 | the loop returns true iff some argument matches: a string by its text, an object by its JSON text |
| ConsoleFilter.Forwarded | web/js/logger.js:75-107 | the reference list of forwarded calls is never longer than the list of calls made |
| ConsoleFilter.FilteredConsole.constructor | web/js/logger.js:72-108 | the wrappers are installed with nothing called and nothing forwarded |
| ConsoleFilter.FilteredConsole.Call | web/js/logger.js:73-107 | a wrapper forwards exactly its own argument list to the original method of the same name when the call is not filtered, and forwards nothing otherwise |
| ConsoleFilter.EmptyArgumentsPass | web/js/logger.js:47 | an empty argument list is never filtered |
| ConsoleFilter.SingleArgument | web/js/logger.js:50-66 | a one-argument call is filtered exactly when that argument matches |
| ConsoleFilter.StringArgument | web/js/logger.js:51-55 | a lone string argument is filtered iff it contains one of the patterns |
| ConsoleFilter.FilteredAppend | web/js/logger.js:50-69 | a concatenation of argument lists is filtered iff one of the parts is |
| ConsoleFilter.AppendOnlyAddsDrops | web/js/logger.js:50-69 | appending arguments can turn a pass into a drop, never a drop into a pass |
| ConsoleFilter.OrderIrrelevant | web/js/logger.js:50-69 | two argument lists holding the same arguments, in any order, are filtered alike |
| ConsoleFilter.NonMatchingArgumentIgnored | web/js/logger.js:56-65 | a number, boolean, null, undefined, or an object whose stringification throws never changes the verdict |
| ConsoleFilter.PrefixSuppresses | web/js/logger.js:25 | any call with a string argument containing `[PDF Learner]` is dropped |
| ConsoleFilter.ShortTextPasses | web/js/logger.js:20-43 | text shorter than seven characters, the shortest pattern's length, matches no pattern |
| ConsoleFilter.ForwardedAppend | web/js/logger.js:75-107 | forwarding over two stretches of calls is the forwarding of each, in order |
| ConsoleFilter.ForwardedSound | web/js/logger.js:75-107 | every forwarded call was made, is not filtered, and keeps its arguments |
| ConsoleFilter.ForwardedComplete | web/js/logger.js:75-107 | every call that is not filtered is forwarded |
| ConsoleFilter.ForwardedIdentity | web/js/logger.js:75-107 | when no call is filtered, the original methods see exactly the calls made, in order |
| ConsoleFilter.ForwardedDropsAll | web/js/logger.js:75-107 | when every call is filtered, nothing is forwarded |
| LoggerInterplay.AppLoggerCallIsDropped | js/logger.js:69 | a call shaped like AppLogger's output is filtered |
| LoggerInterplay.EveryCallFiltered | js/logger.js:69 | every call in a list of such calls is filtered |
| LoggerInterplay.AppLoggerCallsAreDropped | web/js/logger.js:20-43 | none of a list of AppLogger-shaped calls is forwarded |
| LoggerInterplay.LoggerOutputNeverForwarded | js/logger.js:61-123 | nothing a logger has written would be forwarded by the installed filter |

## Left out

- The console itself. AppLogger's calls are appended to its `output` field. The filter's forwarded calls are appended to `forwarded`. Nothing is printed.
- `String(message)` coercion. The logging methods take the message as a string, so a non-string message is not modelled.
- `setLogLevel` argument coercion. The argument is taken as a string; the property-key coercion that `hasOwnProperty` applies to other values is not modelled.
- `JSON.stringify` is a foreign call. An object argument carries its JSON text, or `None` when stringification throws or gives no string.
- Character encoding. JavaScript strings are UTF-16 code units, while Dafny strings are Unicode scalar values. Only ASCII characters belong to the masking classes and the filter patterns, so the results agree. Lone surrogates cannot be represented.
- The disabled `if (false)` console override in js/logger.js:132-154. It is dead code.
- The empty `logToServer` branch of `error`, js/logger.js:120-122. It does nothing.
- The `DOMContentLoaded` / `setTimeout` Firebase block, js/logger.js:157-175. It uses the DOM, timers and a foreign library.
- `console.clear()` and the load banner, web/js/logger.js:111-114. They are one-time output at load.
- The unused branch for `isDebugMode` true. It is modelled only as the constant `IsDebugMode`, so the wrappers are always active.
- The five wrappers are textually identical apart from the method they forward to. They are modelled as one method, `FilteredConsole.Call`, that takes the channel as a parameter.
- Windows run loop and window shim (windows/). They are Win32 message-pump glue, with every step an OS call. The wait computed in `Run` is always zero, because `next_flutter_event_time` is read once before the loop.
- Android and iOS method-channel handlers. They only dispatch onto platform APIs.
- Firebase and PayPal cloud functions (functions/). They are Firestore transactions and HTTP calls; the amount check uses floating point.
- ConsoleFilter.Forwarded: its own contract states only a length bound. What it forwards is stated by the lemmas ForwardedSound, ForwardedComplete, ForwardedAppend, ForwardedIdentity and ForwardedDropsAll.
- Masking.MatchEmail: its own contract states only that a match is non-empty and in bounds. Its value is stated by MatchEmailIsSpec.
