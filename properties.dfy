/**
  What the deduplicator promises, proved about `Step` and `Run`: which branch keeps
  the set as it is, which adds the URL unconditionally, what the replacement loop
  removes and adds, and what holds over a whole run of URLs.
 */
module Properties {
  import opened Text
  import opened Url
  import opened Query
  import opened Uddup

  /**
    The pattern of a stripped path that holds a `/` is its text before its last
    `/`: a proper prefix of the path, followed there by the slash. It is never
    empty, because a stripped path does not start with a slash.
   */
  lemma PatternBeforeLastSlash(path: string)
    requires '/' in Strip(path)
    ensures var urlPath := Strip(path);
            var parts := Split(urlPath, '/');
            && |parts| >= 2
            && var pattern := UrlPattern(parts);
            && 0 < |pattern| < |urlPath|
            && StartsWith(urlPath, pattern)
            && urlPath[|pattern|] == '/'
            && '/' !in urlPath[|pattern| + 1..]
  {
    var urlPath := Strip(path);
    var parts := Split(urlPath, '/');
    SplitAtLast(urlPath, '/');
    SliceAroundSeparator(urlPath, UrlPattern(parts), '/', parts[|parts| - 1]);
    assert urlPath[0] != '/';
  }

  /** A stripped path splits into two segments or more exactly when it holds a `/`. */
  lemma SegmentsIffSlash(urlPath: string)
    ensures |Split(urlPath, '/')| >= 2 <==> '/' in urlPath
  {
    SplitSingle(urlPath, '/');
  }

  /**
    The tests on the stripped path alone: an ignored suffix drops the URL; an empty
    path, a web suffix or a single segment keep it; anything else goes by its
    pattern, which the URL itself matches.
   */
  lemma RouteCases(sfx: SuffixLists, url: ParsedUrl)
    ensures var urlPath := Strip(url.path);
            RouteOf(sfx, url) == Drop <==> urlPath != "" && EndsWithAny(urlPath, sfx.ignored)
    ensures var urlPath := Strip(url.path);
            RouteOf(sfx, url).ByPattern? <==>
              urlPath != "" && !EndsWithAny(urlPath, sfx.ignored) && !EndsWithAny(urlPath, sfx.web)
              && '/' in urlPath
    ensures RouteOf(sfx, url).ByPattern? ==>
              && '/' in Strip(url.path)
              && RouteOf(sfx, url).pattern == UrlPattern(Split(Strip(url.path), '/'))
              && MatchesPattern(url, RouteOf(sfx, url).pattern)
  {
    var urlPath := Strip(url.path);
    SegmentsIffSlash(urlPath);
    if '/' in urlPath {
      PatternBeforeLastSlash(url.path);
    }
  }

  /** A URL whose stripped path is empty belongs to no pattern at all. */
  lemma RootMatchesNoPattern(sfx: SuffixLists, u: ParsedUrl, url: ParsedUrl)
    requires Strip(u.path) == "" && RouteOf(sfx, url).ByPattern?
    ensures !MatchesPattern(u, RouteOf(sfx, url).pattern)
  {
    RouteCases(sfx, url);
    PatternBeforeLastSlash(url.path);
  }

  /** Whatever the branch, the kept set afterwards holds nothing but what it held and the new URL. */
  lemma StepWithin(sfx: SuffixLists, kept: set<ParsedUrl>, url: ParsedUrl)
    ensures Step(sfx, kept, url) <= kept + {url}
  {
  }

  /** A stripped path with an ignored suffix leaves the kept set as it is. */
  lemma IgnoredKeepsSet(sfx: SuffixLists, kept: set<ParsedUrl>, url: ParsedUrl)
    requires Strip(url.path) != "" && EndsWithAny(Strip(url.path), sfx.ignored)
    ensures Step(sfx, kept, url) == kept
  {
    RouteCases(sfx, url);
  }

  /** `get_ignored_suffixes`: 29 entries, each a non-empty bare suffix with no dot. */
  lemma IgnoredSuffixesShape()
    ensures |IgnoredSuffixes| == 29
    ensures forall i :: 0 <= i < |IgnoredSuffixes| ==> IgnoredSuffixes[i] != "" && '.' !in IgnoredSuffixes[i]
  {
  }

  /** `get_web_suffixes`: 27 entries, each a non-empty bare suffix with no dot. */
  lemma WebSuffixesShape()
    ensures |WebSuffixes| == 27
    ensures forall j :: 0 <= j < |WebSuffixes| ==> WebSuffixes[j] != "" && '.' !in WebSuffixes[j]
  {
  }

  /** `xml` is in both of the program's tuples, and any string ending in it has an ignored suffix. */
  lemma XmlIsIgnored(s: string)
    requires EndsWith(s, "xml")
    ensures "xml" in IgnoredSuffixes && "xml" in WebSuffixes
    ensures EndsWithAny(s, IgnoredSuffixes)
  {
    assert IgnoredSuffixes[7] == "xml" && WebSuffixes[17] == "xml";
    EndsWithAnyIff(s, IgnoredSuffixes);
  }

  /**
    `xml` is in both tuples, and the ignored test comes first: a stripped path that
    ends in `xml` leaves the kept set as it is.
   */
  lemma XmlAlwaysDropped(kept: set<ParsedUrl>, url: ParsedUrl)
    requires EndsWith(Strip(url.path), "xml")
    ensures "xml" in IgnoredSuffixes && "xml" in WebSuffixes
    ensures Step(Suffixes, kept, url) == kept
  {
    XmlIsIgnored(Strip(url.path));
    IgnoredKeepsSet(Suffixes, kept, url);
  }

  /**
    A suffix is a bare string suffix, with no dot before it: any path ending in `do`,
    such as `a/todo`, ends in a web suffix.
   */
  lemma WebSuffixNeedsNoDot(s: string)
    requires EndsWith(s, "do")
    ensures EndsWithAny(s, WebSuffixes)
  {
    assert WebSuffixes[16] == "do";
    EndsWithAnyIff(s, WebSuffixes);
  }

  /** A pattern is a bare string prefix: a URL on `/a/bc/d` belongs to the pattern `a/b`. */
  lemma PatternIgnoresSegments(u: ParsedUrl)
    requires u.path == "/a/bc/d"
    ensures MatchesPattern(u, "a/b")
  {
    var path := "/a/bc/d";
    assert path[0] == '/' && path[1] == 'a' && path[6] == 'd';
    assert SkipSlashes(path, 0) == 1;
    assert BackOverSlashes(path, 1, 7) == 7;
    assert path[1..7] == "a/bc/d";
  }

  /**
    The URL is added unconditionally when its stripped path is empty, or, the
    ignored test failing, when the path ends in a web suffix, has one segment only,
    or has a pattern that no kept URL matches.
   */
  lemma AddedUnconditionally(sfx: SuffixLists, kept: set<ParsedUrl>, url: ParsedUrl)
    requires var urlPath := Strip(url.path);
             var parts := Split(urlPath, '/');
             || urlPath == ""
             || (!EndsWithAny(urlPath, sfx.ignored) &&
                 (|| EndsWithAny(urlPath, sfx.web)
                  || '/' !in urlPath
                  || PatternMatches(kept, UrlPattern(parts)) == {}))
    ensures Step(sfx, kept, url) == kept + {url}
  {
    RouteCases(sfx, url);
  }

  /** A query-less URL whose pattern some kept URL matches is dropped. */
  lemma QuerylessMatchedDropped(sfx: SuffixLists, kept: set<ParsedUrl>, url: ParsedUrl)
    requires var urlPath := Strip(url.path);
             && urlPath != "" && '/' in urlPath
             && !EndsWithAny(urlPath, sfx.ignored) && !EndsWithAny(urlPath, sfx.web)
             && PatternMatches(kept, UrlPattern(Split(urlPath, '/'))) != {}
    requires url.query == ""
    ensures Step(sfx, kept, url) == kept
  {
    RouteCases(sfx, url);
  }

  /**
    The replacement loop for a URL with a query, over matches taken from the kept
    set: every query-less match is removed, and so is every match whose keys are all
    among the new URL's and which has fewer of them; every other kept URL stays. The
    new URL is in the set afterwards exactly when it was there before, or some match
    was removed, or some match has a key that the new URL lacks.
   */
  lemma ReconcileFacts(kept: set<ParsedUrl>, matches: set<ParsedUrl>, url: ParsedUrl)
    requires matches <= kept && url.query != ""
    ensures var after := Reconcile(kept, matches, url);
            && after <= kept + {url}
            && (forall w :: w in kept && w !in matches ==> w in after)
            && (forall w :: w in matches && w.query == "" ==> w !in after)
            && (forall w :: w in matches && AllParamsExist(w, url) && HasMoreParams(w, url) ==> w !in after)
            && (forall w :: w in matches && w.query != "" && !(AllParamsExist(w, url) && HasMoreParams(w, url))
                  ==> w in after)
            && (url in after <==>
                  || url in kept
                  || exists w :: w in matches &&
                       (w.query == "" || HasMoreParams(w, url) || !AllParamsExist(w, url)))
  {
    JudgeSelf(url);
    assert url !in Displaced(matches, url);
    assert Admitted(matches, url) <==>
           exists w :: w in matches && (w.query == "" || HasMoreParams(w, url) || !AllParamsExist(w, url));
  }

  /** `ReconcileFacts` for the matches of the URL's own pattern, in the branch that runs the loop. */
  lemma ReplacementLoop(sfx: SuffixLists, kept: set<ParsedUrl>, url: ParsedUrl)
    requires var urlPath := Strip(url.path);
             && urlPath != "" && '/' in urlPath
             && !EndsWithAny(urlPath, sfx.ignored) && !EndsWithAny(urlPath, sfx.web)
             && PatternMatches(kept, UrlPattern(Split(urlPath, '/'))) != {}
    requires url.query != ""
    ensures Step(sfx, kept, url) == Reconcile(kept, PatternMatches(kept, UrlPattern(Split(Strip(url.path), '/'))), url)
  {
    RouteCases(sfx, url);
  }

  /** A URL given twice in a row changes nothing the second time. */
  lemma StepIdempotent(sfx: SuffixLists, kept: set<ParsedUrl>, url: ParsedUrl)
    ensures Step(sfx, Step(sfx, kept, url), url) == Step(sfx, kept, url)
  {
    RouteCases(sfx, url);
    if RouteOf(sfx, url).ByPattern? {
      var pattern := RouteOf(sfx, url).pattern;
      var matches := PatternMatches(kept, pattern);
      var once := Step(sfx, kept, url);
      var again := PatternMatches(once, pattern);
      if matches == {} {
        assert url in again;
        if url.query != "" {
          JudgeSelf(url);
          assert again == {url};
          assert Displaced(again, url) == {};
        }
      } else if url.query != "" {
        AgainAfterReconcile(kept, pattern, url);
      }
    }
  }

  /** The second pass of the replacement loop over what the first one left finds nothing to do. */
  lemma AgainAfterReconcile(kept: set<ParsedUrl>, pattern: string, url: ParsedUrl)
    requires url.query != "" && MatchesPattern(url, pattern)
    requires PatternMatches(kept, pattern) != {}
    ensures var once := Reconcile(kept, PatternMatches(kept, pattern), url);
            var again := PatternMatches(once, pattern);
            again != {} && Reconcile(once, again, url) == once
  {
    var matches := PatternMatches(kept, pattern);
    var once := Reconcile(kept, matches, url);
    var again := PatternMatches(once, pattern);
    JudgeSelf(url);
    if Admitted(matches, url) {
      assert url in again;
    } else {
      assert Displaced(matches, url) == {};
      assert once == kept;
      return;
    }
    assert Displaced(again, url) == {} by {
      forall w | w in again ensures Judge(w, url) != Displace {
        if w != url {
          assert w in matches - Displaced(matches, url);
        }
      }
    }
  }

  /** A URL whose stripped path is empty is always added, and never removed afterwards. */
  lemma RootUrlKept(sfx: SuffixLists, kept: set<ParsedUrl>, url: ParsedUrl, w: ParsedUrl)
    requires Strip(w.path) == ""
    requires w in kept || w == url
    ensures w in Step(sfx, kept, url)
  {
    if w != url && RouteOf(sfx, url).ByPattern? {
      RootMatchesNoPattern(sfx, w, url);
      var matches := PatternMatches(kept, RouteOf(sfx, url).pattern);
      assert w !in matches;
      assert w !in Displaced(matches, url);
    }
  }

  /** Root URLs pile up over a run: each one given is kept at the end, however many there are. */
  lemma {:induction false} RootUrlsSurvive(sfx: SuffixLists, kept: set<ParsedUrl>, urls: seq<ParsedUrl>, w: ParsedUrl)
    requires Strip(w.path) == ""
    requires w in kept || w in urls
    ensures w in Run(sfx, kept, urls)
    decreases |urls|
  {
    if urls == [] {
      return;
    }
    var n := |urls| - 1;
    var prefix := urls[..n];
    if w in kept || w in prefix {
      RootUrlsSurvive(sfx, kept, prefix, w);
      RootUrlKept(sfx, Run(sfx, kept, prefix), urls[n], w);
    } else {
      assert w == urls[n];
      RootUrlKept(sfx, Run(sfx, kept, prefix), urls[n], w);
    }
  }

  /** A URL whose stripped path has an ignored suffix is never in the kept set, however often it is given. */
  lemma {:induction false} IgnoredNeverKept(sfx: SuffixLists, kept: set<ParsedUrl>, urls: seq<ParsedUrl>, w: ParsedUrl)
    requires Strip(w.path) != "" && EndsWithAny(Strip(w.path), sfx.ignored)
    requires w !in kept
    ensures w !in Run(sfx, kept, urls)
    decreases |urls|
  {
    if urls != [] {
      var n := |urls| - 1;
      var before := Run(sfx, kept, urls[..n]);
      IgnoredNeverKept(sfx, kept, urls[..n], w);
      StepWithin(sfx, before, urls[n]);
      if urls[n] == w {
        IgnoredKeepsSet(sfx, before, w);
      }
    }
  }

  /** Over a whole run, nothing but the given URLs is ever kept. */
  lemma {:induction false} RunWithin(sfx: SuffixLists, kept: set<ParsedUrl>, urls: seq<ParsedUrl>)
    ensures forall w :: w in Run(sfx, kept, urls) ==> w in kept || w in urls
    decreases |urls|
  {
    if urls != [] {
      var n := |urls| - 1;
      RunWithin(sfx, kept, urls[..n]);
      StepWithin(sfx, Run(sfx, kept, urls[..n]), urls[n]);
      assert forall w :: w in urls[..n] ==> w in urls;
    }
  }
}
