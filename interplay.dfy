/**
 * How the two scripts meet in the web build: AppLogger writes through the
 * console methods that the filter has replaced.
 */
module LoggerInterplay {
  import opened JsRuntime
  import AppLogging
  import ConsoleFilter

  /**
   * Every console call AppLogger makes starts with "[PDF Learner]", which is
   * one of the filter's patterns, so the filter drops it.
   */
  lemma AppLoggerCallIsDropped(e: Entry)
    requires AppLogging.PrefixedCall(e)
    ensures ConsoleFilter.Filtered(e.args)
  {
    assert AppLogging.Prefix <= AppLogging.Prefix[0..];
    ConsoleFilter.PrefixSuppresses(e.args, 0, AppLogging.Prefix);
  }

  lemma AppLoggerCallsAreDropped(calls: seq<Entry>)
    requires forall k :: 0 <= k < |calls| ==> AppLogging.PrefixedCall(calls[k])
    ensures ConsoleFilter.Forwarded(calls) == []
  {
    EveryCallFiltered(calls);
    ConsoleFilter.ForwardedDropsAll(calls);
  }

  lemma EveryCallFiltered(calls: seq<Entry>)
    requires forall k :: 0 <= k < |calls| ==> AppLogging.PrefixedCall(calls[k])
    ensures forall k :: 0 <= k < |calls| ==> ConsoleFilter.Filtered(calls[k].args)
  {
    forall k | 0 <= k < |calls|
      ensures ConsoleFilter.Filtered(calls[k].args)
    {
      AppLoggerCallIsDropped(calls[k]);
    }
  }

  /** Nothing a logger has written would reach the original console once the filter is installed. */
  lemma LoggerOutputNeverForwarded(logger: AppLogging.AppLogger)
    requires logger.Valid()
    ensures ConsoleFilter.Forwarded(logger.output) == []
  {
    AppLoggerCallsAreDropped(logger.output);
  }
}
