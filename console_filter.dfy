/**
 * The console filter of web/js/logger.js. It replaces console.log, info,
 * warn, error and debug by wrappers that drop a call when some argument
 * mentions one of a fixed list of substrings, and otherwise pass the
 * arguments on to the saved original method.
 */
module ConsoleFilter {
  import opened JsRuntime

  /** The wrappers are installed only when this is false, and it is the constant false. */
  const IsDebugMode := false

  const FilterPatterns: seq<string> := [
    "Initializing Firebase",
    "TrustedTypes",
    "firebase",
    "Firebase",
    "[PDF Learner]",
    "flutter_target",
    "Flutter",
    "Created engine initializer",
    "first-frame",
    "chrome is moving",
    "Chrome is moving",
    "Violation",
    "timeout",
    "heap allocations",
    "Preloader",
    "Rendering engine",
    "rendering frame",
    "canvaskit",
    "favicon.ico",
    "font-family",
    "main.dart.js",
    "gis-dart"
  ]

  /** `filterPatterns.some(pattern => text.includes(pattern))`. */
  predicate MatchesFilter(text: string)
  {
    exists k :: 0 <= k < |FilterPatterns| && Includes(text, FilterPatterns[k])
  }

  /**
   * A single argument matches: a string by its own text, an object by its
   * JSON text; an object whose stringification fails, and every other value,
   * never matches.
   */
  predicate ArgMatches(a: Value)
  {
    match a
    case Str(s) => MatchesFilter(s)
    case Obj(json) => json.Some? && MatchesFilter(json.value)
    case Scalar(_) => false
  }

  /** The specification of shouldFilterLog: some argument matches. */
  predicate Filtered(args: seq<Value>)
  {
    exists i :: 0 <= i < |args| && ArgMatches(args[i])
  }

  /** shouldFilterLog: scan the arguments in order and stop at the first that matches. */
  method ShouldFilterLog(args: seq<Value>) returns (r: bool)
    ensures r <==> Filtered(args)
  {
    if |args| == 0 {
      return false;
    }
    var i := 0;
    while i < |args|
      invariant 0 <= i <= |args|
      invariant forall j :: 0 <= j < i ==> !ArgMatches(args[j])
    {
      match args[i] {
        case Str(message) =>
          if MatchesFilter(message) {
            return true;
          }
        case Obj(json) =>
          // None stands for JSON.stringify throwing, which the source catches and ignores
          if json.Some? && MatchesFilter(json.value) {
            return true;
          }
        case Scalar(_) =>
      }
      i := i + 1;
    }
    return false;
  }

  /** The calls, in order, that a sequence of console calls passes on to the original methods. */
  function Forwarded(calls: seq<Entry>): (r: seq<Entry>)
    ensures |r| <= |calls|
  {
    if calls == [] then []
    else
      var last := calls[|calls| - 1];
      Forwarded(calls[..|calls| - 1]) + (if Filtered(last.args) then [] else [last])
  }

  /**
   * The console after the module has run: `forwarded` holds the calls that
   * reached the saved original methods, `calls` every call made to the wrappers.
   */
  class FilteredConsole {
    var forwarded: seq<Entry>
    ghost var calls: seq<Entry>

    ghost predicate Valid()
      reads this
    {
      forwarded == Forwarded(calls)
    }

    constructor ()
      ensures Valid() && calls == [] && forwarded == []
    {
      forwarded := [];
      calls := [];
    }

    /** Any of the five wrappers `console.<ch> = function(...args) { ... }`. */
    method Call(ch: Channel, args: seq<Value>)
      requires Valid()
      modifies this
      ensures Valid()
      ensures calls == old(calls) + [Entry(ch, args)]
      ensures forwarded == old(forwarded) + (if Filtered(args) then [] else [Entry(ch, args)])
    {
      var drop := false;
      if !IsDebugMode {
        drop := ShouldFilterLog(args);
      }
      calls := calls + [Entry(ch, args)];
      assert calls[..|calls| - 1] == old(calls);
      if !drop {
        forwarded := forwarded + [Entry(ch, args)];
      }
    }
  }

  // ---------------------------------------------------------------------
  // Properties of the predicate

  lemma EmptyArgumentsPass()
    ensures !Filtered([])
  {
  }

  /** A single argument list is filtered exactly when its one argument matches. */
  lemma SingleArgument(v: Value)
    ensures Filtered([v]) == ArgMatches(v)
  {
    if ArgMatches(v) {
      assert [v][0] == v;
    }
  }

  /** A lone string is filtered iff it contains one of the patterns. */
  lemma StringArgument(text: string)
    ensures Filtered([Str(text)]) <==>
      exists k :: 0 <= k < |FilterPatterns| && Includes(text, FilterPatterns[k])
  {
    SingleArgument(Str(text));
  }

  /** Filtering distributes over concatenation of argument lists. */
  lemma FilteredAppend(a: seq<Value>, b: seq<Value>)
    ensures Filtered(a + b) <==> Filtered(a) || Filtered(b)
  {
    var x := a + b;
    if Filtered(x) {
      var i :| 0 <= i < |x| && ArgMatches(x[i]);
      if i < |a| {
        assert x[i] == a[i];
      } else {
        assert x[i] == b[i - |a|];
      }
    }
    if Filtered(a) {
      var i :| 0 <= i < |a| && ArgMatches(a[i]);
      assert x[i] == a[i];
    }
    if Filtered(b) {
      var i :| 0 <= i < |b| && ArgMatches(b[i]);
      assert x[i + |a|] == b[i];
    }
  }

  /** Appending arguments can turn a pass into a drop, never a drop into a pass. */
  lemma AppendOnlyAddsDrops(a: seq<Value>, b: seq<Value>)
    ensures Filtered(a) ==> Filtered(a + b)
    ensures Filtered(b) ==> Filtered(a + b)
  {
    FilteredAppend(a, b);
  }

  /** The order of the arguments does not matter. */
  lemma OrderIrrelevant(a: seq<Value>, b: seq<Value>)
    requires multiset(a) == multiset(b)
    ensures Filtered(a) == Filtered(b)
  {
    if Filtered(a) {
      var i :| 0 <= i < |a| && ArgMatches(a[i]);
      assert a[i] in multiset(b);
      var j :| 0 <= j < |b| && b[j] == a[i];
    }
    if Filtered(b) {
      var j :| 0 <= j < |b| && ArgMatches(b[j]);
      assert b[j] in multiset(a);
      var i :| 0 <= i < |a| && a[i] == b[j];
    }
  }

  /** Numbers, booleans, null, undefined and objects that fail to stringify never cause a drop. */
  lemma NonMatchingArgumentIgnored(a: seq<Value>, v: Value, b: seq<Value>)
    requires v.Scalar? || v == Obj(None)
    ensures Filtered(a + [v] + b) == Filtered(a + b)
  {
    FilteredAppend(a + [v], b);
    FilteredAppend(a, [v]);
    FilteredAppend(a, b);
    SingleArgument(v);
  }

  /** Every argument that mentions the AppLogger prefix gets the call dropped. */
  lemma PrefixSuppresses(args: seq<Value>, i: nat, text: string)
    requires i < |args| && args[i] == Str(text)
    requires Includes(text, "[PDF Learner]")
    ensures Filtered(args)
  {
    assert FilterPatterns[4] == "[PDF Learner]";
    assert ArgMatches(args[i]);
  }

  /** A text shorter than every pattern never matches. */
  lemma ShortTextPasses(text: string)
    requires |text| < 7
    ensures !MatchesFilter(text)
  {
    forall k | 0 <= k < |FilterPatterns|
      ensures !Includes(text, FilterPatterns[k])
    {
      assert |FilterPatterns[k]| >= 7;
    }
  }

  // ---------------------------------------------------------------------
  // Properties of forwarding

  lemma {:induction false} ForwardedAppend(a: seq<Entry>, b: seq<Entry>)
    ensures Forwarded(a + b) == Forwarded(a) + Forwarded(b)
    decreases |b|
  {
    if b == [] {
      assert a + b == a;
    } else {
      var last := b[|b| - 1];
      assert (a + b)[..|a + b| - 1] == a + b[..|b| - 1];
      ForwardedAppend(a, b[..|b| - 1]);
    }
  }

  /** Only calls that pass the filter are forwarded, each with its argument list unchanged. */
  lemma {:induction false} ForwardedSound(calls: seq<Entry>)
    ensures forall e | e in Forwarded(calls) :: e in calls && !Filtered(e.args)
  {
    if calls != [] {
      ForwardedSound(calls[..|calls| - 1]);
    }
  }

  /** Every call that passes the filter is forwarded. */
  lemma {:induction false} ForwardedComplete(calls: seq<Entry>)
    ensures forall e | e in calls && !Filtered(e.args) :: e in Forwarded(calls)
  {
    if calls != [] {
      var init := calls[..|calls| - 1];
      ForwardedComplete(init);
      assert calls == init + [calls[|calls| - 1]];
    }
  }

  /** When no call is filtered, the original methods see exactly the calls made, in order. */
  lemma {:induction false} ForwardedIdentity(calls: seq<Entry>)
    requires forall k :: 0 <= k < |calls| ==> !Filtered(calls[k].args)
    ensures Forwarded(calls) == calls
  {
    if calls != [] {
      var init := calls[..|calls| - 1];
      ForwardedIdentity(init);
      assert calls == init + [calls[|calls| - 1]];
    }
  }

  /** When every call is filtered, nothing reaches the original methods. */
  lemma {:induction false} ForwardedDropsAll(calls: seq<Entry>)
    requires forall k :: 0 <= k < |calls| ==> Filtered(calls[k].args)
    ensures Forwarded(calls) == []
  {
    if calls != [] {
      ForwardedDropsAll(calls[..|calls| - 1]);
    }
  }
}
