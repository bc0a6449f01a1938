/**
  The handful of Python `str` operations the deduplicator relies on, written out
  over `string` (a `seq<char>`): `strip('/')`, `startswith`, `endswith` with a
  tuple of suffixes, `split` on one character and `join`.
 */
module Text {

  /** Python's `s.startswith(prefix)`: a plain string prefix test. */
  predicate StartsWith(s: string, prefix: string) {
    |prefix| <= |s| && s[..|prefix|] == prefix
  }

  /** Python's `s.endswith(suffix)`: a plain string suffix test, no notion of an extension. */
  predicate EndsWith(s: string, suffix: string) {
    |suffix| <= |s| && s[|s| - |suffix|..] == suffix
  }

  /**
    Python's `s.endswith(suffixes)` for a tuple: true when one of them is a suffix,
    tried in order; `EndsWithAnyIff` states it without the recursion.
   */
  predicate EndsWithAny(s: string, suffixes: seq<string>)
    decreases |suffixes|
  {
    |suffixes| > 0 && (EndsWith(s, suffixes[0]) || EndsWithAny(s, suffixes[1..]))
  }

  lemma {:induction false} EndsWithAnyIff(s: string, suffixes: seq<string>)
    ensures EndsWithAny(s, suffixes) <==> exists i :: 0 <= i < |suffixes| && EndsWith(s, suffixes[i])
    decreases |suffixes|
  {
    if |suffixes| > 0 {
      EndsWithAnyIff(s, suffixes[1..]);
      if EndsWithAny(s, suffixes[1..]) {
        var i :| 0 <= i < |suffixes[1..]| && EndsWith(s, suffixes[1..][i]);
        assert EndsWith(s, suffixes[i + 1]);
      }
      if i :| 0 <= i < |suffixes| && EndsWith(s, suffixes[i]) {
        if i > 0 { assert suffixes[1..][i - 1] == suffixes[i]; }
      }
    }
  }

  /** The index of the first non-slash of `s` at or after `from` (or `|s|`). */
  function SkipSlashes(s: string, from: nat): (i: nat)
    requires from <= |s|
    ensures from <= i <= |s|
    ensures forall k :: from <= k < i ==> s[k] == '/'
    ensures i < |s| ==> s[i] != '/'
    decreases |s| - from
  {
    if from < |s| && s[from] == '/' then SkipSlashes(s, from + 1) else from
  }

  /** The end of `s[lo..hi]` once the slashes at its end are dropped. */
  function BackOverSlashes(s: string, lo: nat, hi: nat): (j: nat)
    requires lo <= hi <= |s|
    ensures lo <= j <= hi
    ensures forall k :: j <= k < hi ==> s[k] == '/'
    ensures j > lo ==> s[j - 1] != '/'
    decreases hi
  {
    if hi > lo && s[hi - 1] == '/' then BackOverSlashes(s, lo, hi - 1) else hi
  }

  /**
    Python's `s.strip('/')`: the slashes at both ends are removed. The result is the
    infix `s[i..j]` where everything before `i` and from `j` on is a slash, and it
    neither starts nor ends with a slash.
   */
  function Strip(s: string): (r: string)
    ensures |r| > 0 ==> r[0] != '/' && r[|r| - 1] != '/'
    ensures |r| <= |s|
    ensures var i := SkipSlashes(s, 0);
            && i + |r| <= |s| && r == s[i..i + |r|]
            && (forall k :: 0 <= k < i ==> s[k] == '/')
            && (forall k :: i + |r| <= k < |s| ==> s[k] == '/')
  {
    var i := SkipSlashes(s, 0);
    s[i..BackOverSlashes(s, i, |s|)]
  }

  /** A loop in the manner of CPython's `strip`: advance from the left, then retreat from the right. */
  method ComputeStrip(s: string) returns (r: string)
    ensures r == Strip(s)
  {
    var i := 0;
    while i < |s| && s[i] == '/'
      invariant 0 <= i <= |s|
      invariant SkipSlashes(s, i) == SkipSlashes(s, 0)
    {
      i := i + 1;
    }
    var j := |s|;
    while j > i && s[j - 1] == '/'
      invariant i <= j <= |s|
      invariant BackOverSlashes(s, i, j) == BackOverSlashes(s, i, |s|)
    {
      j := j - 1;
    }
    r := s[i..j];
  }

  /** A loop over the suffix tuple with an early exit, deciding `EndsWithAny`. */
  method TestEndsWithAny(s: string, suffixes: seq<string>) returns (b: bool)
    ensures b == EndsWithAny(s, suffixes)
  {
    var n := 0;
    while n < |suffixes|
      invariant 0 <= n <= |suffixes|
      invariant EndsWithAny(s, suffixes[n..]) == EndsWithAny(s, suffixes)
    {
      var suffix := suffixes[n];
      if |suffix| <= |s| && s[|s| - |suffix|..] == suffix {
        return true;
      }
      assert suffixes[n..][1..] == suffixes[n + 1..];
      n := n + 1;
    }
    return false;
  }

  /** The index of the first `c` in `s`, or `|s|` when there is none. */
  function IndexOf(s: string, c: char): (i: nat)
    ensures i <= |s|
    ensures i < |s| ==> s[i] == c
    ensures c !in s[..i]
    decreases |s|
  {
    if |s| == 0 then 0
    else if s[0] == c then 0
    else
      var j := IndexOf(s[1..], c);
      assert s[..j + 1] == [s[0]] + s[1..][..j];
      j + 1
  }

  /** Python's `sep.join(parts)` for a one-character separator. */
  function Join(parts: seq<string>, sep: char): string
    decreases |parts|
  {
    if |parts| == 0 then ""
    else if |parts| == 1 then parts[0]
    else parts[0] + [sep] + Join(parts[1..], sep)
  }

  /** Joining all but the last piece and then appending the last one is joining them all. */
  lemma {:induction false} JoinInit(parts: seq<string>, sep: char)
    requires |parts| >= 2
    ensures Join(parts, sep) == Join(parts[..|parts| - 1], sep) + [sep] + parts[|parts| - 1]
    decreases |parts|
  {
    if |parts| > 2 {
      JoinInit(parts[1..], sep);
      assert parts[1..][..|parts| - 2] == parts[..|parts| - 1][1..];
    }
  }

  /** How many times `c` occurs in `s`. */
  function Occurrences(s: string, c: char): nat {
    multiset(s)[c]
  }

  /**
    Python's `s.split(sep)` for a one-character separator: the pieces between the
    separators, in order, empty pieces included. There is always one piece more
    than there are separators and no piece holds the separator; `JoinSplit` shows
    that joining the pieces back with the separator gives `s` again.
   */
  function Split(s: string, sep: char): (r: seq<string>)
    ensures |r| == Occurrences(s, sep) + 1
    ensures forall k :: 0 <= k < |r| ==> sep !in r[k]
    decreases |s|
  {
    var i := IndexOf(s, sep);
    if i == |s| then
      assert s[..i] == s;
      assert multiset(s)[sep] == 0;
      [s]
    else
      var rest := Split(s[i + 1..], sep);
      OccurrencesAround(s, i);
      [s[..i]] + rest
  }

  /** `Split` loses nothing: `sep.join(s.split(sep)) == s`. */
  lemma {:induction false} JoinSplit(s: string, sep: char)
    ensures Join(Split(s, sep), sep) == s
    decreases |s|
  {
    var i := IndexOf(s, sep);
    if i < |s| {
      var rest := Split(s[i + 1..], sep);
      JoinSplit(s[i + 1..], sep);
      var r := Split(s, sep);
      assert r == [s[..i]] + rest && |rest| >= 1;
      assert r[1..] == rest;
      calc {
        Join(r, sep);
        r[0] + [sep] + Join(rest, sep);
        s[..i] + [sep] + s[i + 1..];
        { assert s == s[..i] + [sep] + s[i + 1..]; }
        s;
      }
    }
  }

  lemma OccurrencesAround(s: string, i: nat)
    requires i < |s| && s[i] !in s[..i]
    ensures Occurrences(s, s[i]) == Occurrences(s[i + 1..], s[i]) + 1
  {
    assert s == s[..i] + [s[i]] + s[i + 1..];
    assert multiset(s) == multiset(s[..i]) + multiset{s[i]} + multiset(s[i + 1..]);
  }

  /** A string splits into a single piece exactly when it holds no separator. */
  lemma SplitSingle(s: string, sep: char)
    ensures |Split(s, sep)| == 1 <==> sep !in s
  {
    assert sep in s <==> sep in multiset(s);
  }

  /**
    A string holding the separator is the join of all its pieces but the last,
    then the separator, then the last piece, which holds no separator.
   */
  lemma SplitAtLast(s: string, sep: char)
    requires sep in s
    ensures var parts := Split(s, sep);
            && |parts| >= 2
            && s == Join(parts[..|parts| - 1], sep) + [sep] + parts[|parts| - 1]
            && sep !in parts[|parts| - 1]
  {
    SplitSingle(s, sep);
    JoinSplit(s, sep);
    JoinInit(Split(s, sep), sep);
  }

  /** The text before and after a separator, found again by slicing at its index. */
  lemma SliceAroundSeparator(s: string, before: string, sep: char, after: string)
    requires s == before + [sep] + after
    ensures |before| < |s| && s[..|before|] == before && s[|before|] == sep && s[|before| + 1..] == after
  {
  }
}
