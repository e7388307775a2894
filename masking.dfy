/**
 * maskSensitiveInfo of js/logger.js: three global regular-expression
 * replacements applied in sequence.
 *
 *   1. a run of 30 or more of [A-Za-z0-9_-]            becomes "***_API_KEY_MASKED_***"
 *   2. [a-zA-Z0-9._-]+ @ [a-zA-Z0-9._-]+ \. [a-zA-Z0-9._-]+  becomes "***@***"
 *   3. a run of 20 or more of [a-zA-Z0-9]              becomes "***_UID_MASKED_***"
 *
 * Each pass is modelled the way String.prototype.replace runs a global
 * regular expression: search for the leftmost position at which the pattern
 * matches, replace that match, and resume the search right after it. The
 * matchers follow the regex engine: greedy quantifiers, and for the e-mail
 * pattern the backtracking over the first two quantifiers.
 */
module Masking {
  import opened JsRuntime

  predicate IsAlnum(c: char)
  {
    'a' <= c <= 'z' || 'A' <= c <= 'Z' || '0' <= c <= '9'
  }

  /**
   * The three character classes of the patterns. The `i` flag of the e-mail
   * pattern changes nothing: its class already holds both cases, and without
   * the `u` flag no non-ASCII character folds onto an ASCII one.
   */
  datatype CharClass =
    | Alnum      // [a-zA-Z0-9]
    | KeyChar    // [A-Za-z0-9_-]
    | EmailChar  // [a-zA-Z0-9._-]

  predicate InClass(c: char, cls: CharClass)
  {
    match cls
    case Alnum => IsAlnum(c)
    case KeyChar => IsAlnum(c) || c == '_' || c == '-'
    case EmailChar => IsAlnum(c) || c == '.' || c == '_' || c == '-'
  }

  /** The end of the longest run of characters of `cls` that starts at `p`. */
  function RunEnd(s: string, p: nat, cls: CharClass): (e: nat)
    requires p <= |s|
    ensures p <= e <= |s|
    ensures forall j :: p <= j < e ==> InClass(s[j], cls)
    ensures e == |s| || !InClass(s[e], cls)
    decreases |s| - p
  {
    if p < |s| && InClass(s[p], cls) then RunEnd(s, p + 1, cls) else p
  }

  /** `n` characters of `cls` start at position `i` of `s`. */
  predicate RunAt(s: string, i: nat, n: nat, cls: CharClass)
  {
    i + n <= |s| && forall j :: i <= j < i + n ==> InClass(s[j], cls)
  }

  /** No `n` consecutive characters of `s` all belong to `cls`. */
  ghost predicate NoLongRun(s: string, cls: CharClass, n: nat)
  {
    forall i: nat :: !RunAt(s, i, n, cls)
  }

  // ---------------------------------------------------------------------
  // Matching at one position

  /** `cls{min,}` at position `p`: greedy, so the whole run when it is long enough. */
  function MatchRun(s: string, p: nat, cls: CharClass, min: nat): (m: Option<nat>)
    requires p <= |s|
    requires min > 0
    ensures m.Some? ==> p < m.value <= |s|
  {
    var e := RunEnd(s, p, cls);
    if e - p >= min then Some(e) else None
  }

  /**
   * The part `[...]+ \. [...]+` after the `@`, which starts at `q`. The first
   * quantifier has been given the characters up to `j`; the engine tries the
   * longest choice first and gives back one character at a time. The last
   * quantifier ends the pattern and greedily takes its whole run.
   */
  function MatchDomain(s: string, q: nat, j: nat): (m: Option<nat>)
    requires q <= j <= |s|
    ensures m.Some? ==> q < m.value <= |s|
    decreases j
  {
    if j <= q then None
    else if j < |s| && s[j] == '.' && RunEnd(s, j + 1, EmailChar) > j + 1 then
      Some(RunEnd(s, j + 1, EmailChar))
    else MatchDomain(s, q, j - 1)
  }

  /**
   * The whole e-mail pattern at `p`, with the leading `[...]+` given the
   * characters up to `i`; on failure of the rest the engine backtracks to `i - 1`.
   */
  function MatchLocal(s: string, p: nat, i: nat): (m: Option<nat>)
    requires p <= i <= |s|
    ensures m.Some? ==> p < m.value <= |s|
    decreases i
  {
    if i <= p then None
    else if i < |s| && s[i] == '@' then
      match MatchDomain(s, i + 1, RunEnd(s, i + 1, EmailChar))
      case Some(e) => Some(e)
      case None => MatchLocal(s, p, i - 1)
    else MatchLocal(s, p, i - 1)
  }

  function MatchEmail(s: string, p: nat): (m: Option<nat>)
    requires p <= |s|
    ensures m.Some? ==> p < m.value <= |s|
  {
    MatchLocal(s, p, RunEnd(s, p, EmailChar))
  }

  /**
   * A declarative reading of the e-mail match at `p`: the run of e-mail
   * characters from `p` must be followed by `@`, and the run after the `@`
   * must hold a `.` with at least one character on each side of it; the
   * match then ends where that second run ends.
   */
  function EmailSpec(s: string, p: nat): Option<nat>
    requires p <= |s|
  {
    var a := RunEnd(s, p, EmailChar);
    if p < a < |s| && s[a] == '@' then
      var b := RunEnd(s, a + 1, EmailChar);
      if exists d :: a + 2 <= d <= b - 2 && s[d] == '.' then Some(b) else None
    else None
  }

  // ---------------------------------------------------------------------
  // The three passes

  datatype Pattern = ApiKey | Email | Uid

  function ClassOf(pat: Pattern): CharClass
  {
    match pat
    case ApiKey => KeyChar
    case Email => EmailChar
    case Uid => Alnum
  }

  /** The repetition bound of the two run patterns. */
  function MinRun(pat: Pattern): nat
    requires pat != Email
  {
    if pat == ApiKey then 30 else 20
  }

  function Marker(pat: Pattern): string
  {
    match pat
    case ApiKey => "***_API_KEY_MASKED_***"
    case Email => "***@***"
    case Uid => "***_UID_MASKED_***"
  }

  function MatchAt(pat: Pattern, s: string, p: nat): (m: Option<nat>)
    requires p <= |s|
    ensures m.Some? ==> p < m.value <= |s|
  {
    if pat == Email then MatchEmail(s, p) else MatchRun(s, p, ClassOf(pat), MinRun(pat))
  }

  /** The leftmost match at or after `from`, as (start, end). */
  function FindMatch(pat: Pattern, s: string, from: nat): (r: Option<(nat, nat)>)
    requires from <= |s|
    ensures r.Some? ==> from <= r.value.0 < r.value.1 <= |s|
                        && MatchAt(pat, s, r.value.0) == Some(r.value.1)
    ensures r.Some? ==> forall q :: from <= q < r.value.0 ==> MatchAt(pat, s, q) == None
    ensures r.None? ==> forall q :: from <= q <= |s| ==> MatchAt(pat, s, q) == None
    decreases |s| - from
  {
    if from == |s| then None  // the patterns never match the empty string
    else match MatchAt(pat, s, from)
      case Some(e) => Some((from, e))
      case None => FindMatch(pat, s, from + 1)
  }

  /** `s.slice(from).replace(/pattern/g, marker)`, searching from `from`. */
  function ReplaceFrom(pat: Pattern, s: string, from: nat): string
    requires from <= |s|
    decreases |s| - from
  {
    match FindMatch(pat, s, from)
    case None => s[from..]
    case Some((p, e)) => s[from..p] + Marker(pat) + ReplaceFrom(pat, s, e)
  }

  function Replace(pat: Pattern, s: string): string
  {
    ReplaceFrom(pat, s, 0)
  }

  /** The three passes of maskSensitiveInfo on a string, in the source's order. */
  function MaskString(s: string): string
  {
    Replace(Uid, Replace(Email, Replace(ApiKey, s)))
  }

  /** maskSensitiveInfo: an empty string and every non-string are returned as they are. */
  function MaskSensitiveInfo(v: Value): (r: Value)
    ensures !v.Str? ==> r == v
    ensures v.Str? ==> r == Str(MaskString(v.s))
  {
    if !v.Str? || v.s == "" then v
    else Str(MaskString(v.s))
  }

  // ---------------------------------------------------------------------
  // Runs

  lemma {:induction false} RunEndCovers(s: string, p: nat, cls: CharClass, k: nat)
    requires p <= k <= |s|
    requires forall j :: p <= j < k ==> InClass(s[j], cls)
    ensures RunEnd(s, p, cls) >= k
    decreases k - p
  {
    if p < k {
      RunEndCovers(s, p + 1, cls, k);
    }
  }

  /** Every position inside a run leads to the same end. */
  lemma {:induction false} RunEndInside(s: string, p: nat, cls: CharClass, k: nat)
    requires p <= |s|
    requires p <= k <= RunEnd(s, p, cls)
    ensures RunEnd(s, k, cls) == RunEnd(s, p, cls)
    decreases k - p
  {
    if p < k {
      RunEndInside(s, p + 1, cls, k);
    }
  }

  /** The greedy run matcher succeeds exactly where `min` characters of the class start. */
  lemma MatchRunIffRunAt(s: string, p: nat, cls: CharClass, min: nat)
    requires p <= |s|
    requires min > 0
    ensures MatchRun(s, p, cls, min).Some? <==> RunAt(s, p, min, cls)
  {
    if RunAt(s, p, min, cls) {
      RunEndCovers(s, p, cls, p + min);
    }
  }

  // ---------------------------------------------------------------------
  // The e-mail matcher against its declarative reading

  /** Backtracking the leading quantifier inside its run never meets an `@`. */
  lemma {:induction false} LocalInsideRunFails(s: string, p: nat, i: nat)
    requires p <= i <= |s|
    requires i == p || i < RunEnd(s, p, EmailChar)
    ensures MatchLocal(s, p, i) == None
    decreases i
  {
    if i > p {
      assert InClass(s[i], EmailChar);
      LocalInsideRunFails(s, p, i - 1);
    }
  }

  lemma {:induction false} DomainMatches(s: string, q: nat, j: nat)
    requires q <= |s|
    requires q <= j <= RunEnd(s, q, EmailChar)
    ensures MatchDomain(s, q, j) ==
      if exists d :: q < d <= j && d + 2 <= RunEnd(s, q, EmailChar) && s[d] == '.'
      then Some(RunEnd(s, q, EmailChar)) else None
    decreases j
  {
    var b := RunEnd(s, q, EmailChar);
    if j > q {
      if j < b {
        RunEndInside(s, q, EmailChar, j + 1);
      }
      if j < |s| && s[j] == '.' && RunEnd(s, j + 1, EmailChar) > j + 1 {
        assert q < j <= j && j + 2 <= b && s[j] == '.';
      } else {
        DomainMatches(s, q, j - 1);
      }
    }
  }

  /** The backtracking matcher computes exactly the declarative reading. */
  lemma MatchEmailIsSpec(s: string, p: nat)
    requires p <= |s|
    ensures MatchEmail(s, p) == EmailSpec(s, p)
  {
    var a := RunEnd(s, p, EmailChar);
    if a > p {
      LocalInsideRunFails(s, p, a - 1);
      if a < |s| && s[a] == '@' {
        var b := RunEnd(s, a + 1, EmailChar);
        DomainMatches(s, a + 1, b);
        assert (exists d :: a + 1 < d <= b && d + 2 <= b && s[d] == '.')
           <==> (exists d :: a + 2 <= d <= b - 2 && s[d] == '.');
      }
    }
  }

  /** Without an `@` the e-mail pattern never matches. */
  lemma NoAtSignNoEmail(s: string, p: nat)
    requires p <= |s|
    requires forall k :: 0 <= k < |s| ==> s[k] != '@'
    ensures MatchEmail(s, p) == None
  {
    MatchEmailIsSpec(s, p);
  }

  // ---------------------------------------------------------------------
  // Run-freedom of slices and concatenations

  lemma NoLongRunSlice(s: string, lo: nat, hi: nat, cls: CharClass, n: nat)
    requires lo <= hi <= |s|
    requires NoLongRun(s, cls, n)
    ensures NoLongRun(s[lo..hi], cls, n)
  {
    var t := s[lo..hi];
    forall i: nat
      ensures !RunAt(t, i, n, cls)
    {
      if i + n <= |t| {
        assert !RunAt(s, lo + i, n, cls);
        var j :| lo + i <= j < lo + i + n && !InClass(s[j], cls);
        assert t[j - lo] == s[j];
      }
    }
  }

  /**
   * A marker that begins and ends with a character outside the class cannot
   * join the runs on its two sides.
   */
  lemma NoLongRunJoin(a: string, m: string, b: string, cls: CharClass, n: nat)
    requires NoLongRun(a, cls, n) && NoLongRun(m, cls, n) && NoLongRun(b, cls, n)
    requires |m| > 0 && !InClass(m[0], cls) && !InClass(m[|m| - 1], cls)
    ensures NoLongRun(a + m + b, cls, n)
  {
    var x := a + m + b;
    var first, last := |a|, |a| + |m| - 1;
    forall i: nat
      ensures !RunAt(x, i, n, cls)
    {
      if i + n <= |x| {
        if i + n <= |a| {
          assert !RunAt(a, i, n, cls);
          var j :| i <= j < i + n && !InClass(a[j], cls);
          assert x[j] == a[j];
        } else if i <= first {
          assert x[first] == m[0];
        } else if i + n <= last {
          var k := i - |a|;
          assert !RunAt(m, k, n, cls);
          var j :| k <= j < k + n && !InClass(m[j], cls);
          assert x[j + |a|] == m[j];
        } else if i <= last {
          assert x[last] == m[|m| - 1];
        } else {
          var k := i - |a| - |m|;
          assert !RunAt(b, k, n, cls);
          var j :| k <= j < k + n && !InClass(b[j], cls);
          assert x[j + |a| + |m|] == b[j];
        }
      }
    }
  }

  lemma MarkerDelimited(pat: Pattern, cls: CharClass)
    ensures |Marker(pat)| > 0
    ensures !InClass(Marker(pat)[0], cls) && !InClass(Marker(pat)[|Marker(pat)| - 1], cls)
  {
  }

  /** Text the search skipped over cannot hold a long run of the pattern's class. */
  lemma GapHasNoLongRun(pat: Pattern, s: string, from: nat, p: nat)
    requires pat != Email
    requires from <= p <= |s|
    requires forall q :: from <= q < p ==> MatchAt(pat, s, q) == None
    ensures NoLongRun(s[from..p], ClassOf(pat), MinRun(pat))
  {
    var t, cls, n := s[from..p], ClassOf(pat), MinRun(pat);
    forall i: nat
      ensures !RunAt(t, i, n, cls)
    {
      if i + n <= |t| {
        assert MatchAt(pat, s, from + i) == None;
        MatchRunIffRunAt(s, from + i, cls, n);
        var j :| from + i <= j < from + i + n && !InClass(s[j], cls);
        assert t[j - from] == s[j];
      }
    }
  }

  // ---------------------------------------------------------------------
  // What the passes guarantee

  /** After a run pass no run of its class reaches its bound. */
  lemma {:induction false} RunPassRemovesRuns(pat: Pattern, s: string, from: nat)
    requires pat != Email
    requires from <= |s|
    ensures NoLongRun(ReplaceFrom(pat, s, from), ClassOf(pat), MinRun(pat))
    decreases |s| - from
  {
    var cls, n := ClassOf(pat), MinRun(pat);
    match FindMatch(pat, s, from)
    case None =>
      GapHasNoLongRun(pat, s, from, |s|);
      assert s[from..] == s[from..|s|];
    case Some((p, e)) =>
      GapHasNoLongRun(pat, s, from, p);
      RunPassRemovesRuns(pat, s, e);
      MarkerDelimited(pat, cls);
      NoLongRunJoin(s[from..p], Marker(pat), ReplaceFrom(pat, s, e), cls, n);
  }

  /** A pass keeps run-freedom for any class its marker is free of. */
  lemma {:induction false} PassPreservesNoLongRun(pat: Pattern, s: string, from: nat, cls: CharClass, n: nat)
    requires from <= |s|
    requires NoLongRun(s, cls, n)
    requires NoLongRun(Marker(pat), cls, n)
    ensures NoLongRun(ReplaceFrom(pat, s, from), cls, n)
    decreases |s| - from
  {
    match FindMatch(pat, s, from)
    case None =>
      NoLongRunSlice(s, from, |s|, cls, n);
      assert s[from..] == s[from..|s|];
    case Some((p, e)) =>
      NoLongRunSlice(s, from, p, cls, n);
      PassPreservesNoLongRun(pat, s, e, cls, n);
      MarkerDelimited(pat, cls);
      NoLongRunJoin(s[from..p], Marker(pat), ReplaceFrom(pat, s, e), cls, n);
  }

  /**
   * What maskSensitiveInfo is for: no 30 consecutive API-key characters and
   * no 20 consecutive letters or digits survive it.
   */
  lemma MaskLeavesNoLongRuns(s: string)
    ensures NoLongRun(MaskString(s), KeyChar, 30)
    ensures NoLongRun(MaskString(s), Alnum, 20)
  {
    var s1 := Replace(ApiKey, s);
    var s2 := Replace(Email, s1);
    RunPassRemovesRuns(ApiKey, s, 0);
    PassPreservesNoLongRun(Email, s1, 0, KeyChar, 30);
    PassPreservesNoLongRun(Uid, s2, 0, KeyChar, 30);
    RunPassRemovesRuns(Uid, s2, 0);
  }

  lemma {:induction false} NoMatchNoChange(pat: Pattern, s: string, from: nat)
    requires from <= |s|
    requires forall q :: from <= q <= |s| ==> MatchAt(pat, s, q) == None
    ensures ReplaceFrom(pat, s, from) == s[from..]
    decreases |s| - from
  {
    if from < |s| {
      NoMatchNoChange(pat, s, from + 1);
    }
  }

  /** A run pass leaves text without a long run of its class untouched. */
  lemma RunPassIdentity(pat: Pattern, s: string)
    requires pat != Email
    requires NoLongRun(s, ClassOf(pat), MinRun(pat))
    ensures Replace(pat, s) == s
  {
    forall q | 0 <= q <= |s|
      ensures MatchAt(pat, s, q) == None
    {
      MatchRunIffRunAt(s, q, ClassOf(pat), MinRun(pat));
    }
    NoMatchNoChange(pat, s, 0);
  }

  lemma RunPassIdempotent(pat: Pattern, s: string)
    requires pat != Email
    ensures Replace(pat, Replace(pat, s)) == Replace(pat, s)
  {
    RunPassRemovesRuns(pat, s, 0);
    RunPassIdentity(pat, Replace(pat, s));
  }

  // ---------------------------------------------------------------------
  // Whole inputs

  /** A match that covers the whole string leaves only the marker. */
  lemma WholeMatchIsMarker(pat: Pattern, s: string)
    requires MatchAt(pat, s, 0) == Some(|s|)
    ensures Replace(pat, s) == Marker(pat)
  {
    var whole: (nat, nat) := (0, |s|);
    assert FindMatch(pat, s, 0) == Some(whole);
    assert ReplaceFrom(pat, s, |s|) == [];
  }

  /** The e-mail pass leaves a string without `@` untouched. */
  lemma EmailPassNeedsAtSign(s: string)
    requires forall k :: 0 <= k < |s| ==> s[k] != '@'
    ensures Replace(Email, s) == s
  {
    forall q | 0 <= q <= |s|
      ensures MatchAt(Email, s, q) == None
    {
      NoAtSignNoEmail(s, q);
    }
    NoMatchNoChange(Email, s, 0);
  }

  /** A string that is one token of 30 or more API-key characters comes out as the API-key marker. */
  lemma ApiKeyTokenMasked(s: string)
    requires |s| >= 30
    requires forall k :: 0 <= k < |s| ==> InClass(s[k], KeyChar)
    ensures MaskString(s) == Marker(ApiKey)
  {
    RunEndCovers(s, 0, KeyChar, |s|);
    WholeMatchIsMarker(ApiKey, s);
    ApiKeyMarkerSurvives();
  }

  /** Text without `@` and without 20 consecutive letters or digits passes the last two passes unchanged. */
  lemma LastPassesKeep(m: string)
    requires forall k :: 0 <= k < |m| ==> m[k] != '@'
    requires NoLongRun(m, Alnum, 20)
    ensures Replace(Uid, Replace(Email, m)) == m
  {
    EmailPassNeedsAtSign(m);
    RunPassIdentity(Uid, m);
  }

  /** The later two passes leave the API-key marker as it is. */
  lemma ApiKeyMarkerSurvives()
    ensures Replace(Uid, Replace(Email, Marker(ApiKey))) == Marker(ApiKey)
  {
    var m := Marker(ApiKey);
    forall i: nat
      ensures !RunAt(m, i, 20, Alnum)
    {
      if i + 20 <= |m| {
        assert i <= 2 < i + 20 && m[2] == '*';
      }
    }
    LastPassesKeep(m);
  }

  /**
   * A string that is one e-mail address (local part, `@`, a domain with an
   * inner `.`) and has no API-key-length run comes out as "***@***".
   */
  lemma EmailAddressMasked(s: string, a: nat, d: nat)
    requires a + 2 <= d <= |s| - 2
    requires s[a] == '@' && s[d] == '.' && a > 0
    requires forall k :: 0 <= k < |s| && k != a ==> InClass(s[k], EmailChar)
    requires NoLongRun(s, KeyChar, 30)
    ensures MaskString(s) == Marker(Email)
  {
    RunPassIdentity(ApiKey, s);
    RunEndCovers(s, 0, EmailChar, a);
    RunEndCovers(s, a + 1, EmailChar, |s|);
    MatchEmailIsSpec(s, 0);
    WholeMatchIsMarker(Email, s);
    RunPassIdentity(Uid, Marker(Email));
  }
}
