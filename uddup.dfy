/**
  The URL deduplication procedure of uddup: URLs are fed in one at a time, and each
  is dropped, kept, or made to displace kept URLs that share its path pattern.

  `Step` is the whole decision for one URL as a function of the kept set;
  `Deduplicator.Process` is the same decision written as the program writes it,
  with its helper loops, and is proved to compute `Step`.
 */
module Uddup {
  import opened Text
  import opened Url
  import opened Query

  /** `get_ignored_suffixes`: paths ending in one of these are never kept. */
  const IgnoredSuffixes: seq<string> := [
    "css", "js", "gif", "jpg", "png", "jpeg", "svg", "xml", "txt", "json", "ico",
    "webp", "otf", "ttf", "woff", "woff2", "eot", "swf", "zip", "pdf", "doc", "ppt",
    "docx", "xls", "xlsx", "ogg", "mp4", "mp3", "mov"]

  /** `get_web_suffixes`: paths ending in one of these (and in no ignored one) are kept as they are. */
  const WebSuffixes: seq<string> := [
    "htm", "html", "xhtml", "shtml", "jhtml", "cfm", "jsp", "jspx", "wss", "action",
    "php", "php4", "php5", "py", "rb", "pl", "do", "xml", "rss", "cgi", "axd", "asx",
    "asmx", "ashx", "asp", "aspx", "dll"]

  /** The two suffix tuples, which `main` fetches once before it reads any URL. */
  datatype SuffixLists = SuffixLists(ignored: seq<string>, web: seq<string>)

  /** The tuples the program uses. */
  const Suffixes := SuffixLists(IgnoredSuffixes, WebSuffixes)

  /** `'/'.join(path_parts[:-1])`: the path without its last segment. */
  function UrlPattern(pathParts: seq<string>): string
    requires |pathParts| >= 2
  {
    Join(pathParts[..|pathParts| - 1], '/')
  }

  /** A kept URL belongs to a pattern when its stripped path starts with it, as a plain string. */
  predicate MatchesPattern(u: ParsedUrl, pattern: string) {
    StartsWith(Strip(u.path), pattern)
  }

  /** What `get_existing_pattern_urls` collects, as a set. */
  function PatternMatches(kept: set<ParsedUrl>, pattern: string): (matches: set<ParsedUrl>)
    ensures matches <= kept
  {
    set u | u in kept && MatchesPattern(u, pattern)
  }

  /** What the replacement loop does about one matching kept URL. */
  datatype Verdict =
    | Displace  // remove the kept URL and add the new one
    | Coexist   // add the new one beside it
    | Pass      // do nothing

  /** The body of the replacement loop for the kept URL `u` and the new URL `url`. */
  function Judge(u: ParsedUrl, url: ParsedUrl): Verdict {
    if u.query == "" then Displace
    else if AllParamsExist(u, url) then (if HasMoreParams(u, url) then Displace else Pass)
    else Coexist
  }

  /** The matches the new URL removes. */
  function Displaced(matches: set<ParsedUrl>, url: ParsedUrl): (gone: set<ParsedUrl>)
    ensures gone <= matches
  {
    set u | u in matches && Judge(u, url) == Displace
  }

  /** Whether the replacement loop adds the new URL at least once. */
  predicate Admitted(matches: set<ParsedUrl>, url: ParsedUrl) {
    exists u :: u in matches && Judge(u, url) != Pass
  }

  /** The kept set once the replacement loop has dealt with every URL of `matches`. */
  function Reconcile(kept: set<ParsedUrl>, matches: set<ParsedUrl>, url: ParsedUrl): set<ParsedUrl> {
    (kept - Displaced(matches, url)) + (if Admitted(matches, url) then {url} else {})
  }

  /** Where the decision for one URL goes, before the kept set is looked at. */
  datatype Route =
    | Drop                        // an ignored suffix: the URL is discarded
    | Keep                        // added as it is, whatever is kept already
    | ByPattern(pattern: string)  // compared with the kept URLs of its pattern

  /** Lines 164-187 of the program: the tests on the stripped path alone. */
  function RouteOf(sfx: SuffixLists, url: ParsedUrl): Route {
    var urlPath := Strip(url.path);
    if urlPath == "" then Keep
    else if EndsWithAny(urlPath, sfx.ignored) then Drop
    else if EndsWithAny(urlPath, sfx.web) then Keep
    else
      var pathParts := Split(urlPath, '/');
      if |pathParts| == 1 then Keep
      else ByPattern(UrlPattern(pathParts))
  }

  /** The decision for one input URL, lines 164-208 of the program, as a function of the kept set. */
  function Step(sfx: SuffixLists, kept: set<ParsedUrl>, url: ParsedUrl): set<ParsedUrl> {
    match RouteOf(sfx, url)
    case Drop => kept
    case Keep => kept + {url}
    case ByPattern(pattern) =>
      var matches := PatternMatches(kept, pattern);
      if matches == {} then kept + {url}
      else if url.query == "" then kept
      else Reconcile(kept, matches, url)
  }

  /** The kept set after feeding `urls` to `Step` in order. */
  function Run(sfx: SuffixLists, kept: set<ParsedUrl>, urls: seq<ParsedUrl>): set<ParsedUrl>
    decreases |urls|
  {
    if urls == [] then kept
    else Step(sfx, Run(sfx, kept, urls[..|urls| - 1]), urls[|urls| - 1])
  }

  /** The elements of a list, as a set. */
  function Elements(s: seq<ParsedUrl>): set<ParsedUrl> {
    set u | u in s
  }

  /** No URL occurs twice in `s`. */
  predicate Distinct(s: seq<ParsedUrl>) {
    forall a, b :: 0 <= a < b < |s| ==> s[a] != s[b]
  }

  lemma AppendDistinct(s: seq<ParsedUrl>, u: ParsedUrl)
    requires Distinct(s) && u !in Elements(s)
    ensures Distinct(s + [u]) && Elements(s + [u]) == Elements(s) + {u}
  {
  }

  /** The URL at `n` of a list without repetitions is in the list, and not in what comes before it. */
  lemma PrefixElements(s: seq<ParsedUrl>, n: nat)
    requires Distinct(s) && n < |s|
    ensures s[n] in Elements(s) && s[n] !in Elements(s[..n])
    ensures Elements(s[..n + 1]) == Elements(s[..n]) + {s[n]}
  {
    assert s[..n + 1] == s[..n] + [s[n]];
  }

  /** One more URL from `rest` looked at by `get_existing_pattern_urls`. */
  lemma MatchesGrow(kept: set<ParsedUrl>, rest: set<ParsedUrl>, u: ParsedUrl, pattern: string)
    requires u in rest && rest <= kept
    ensures PatternMatches(kept - (rest - {u}), pattern)
            == PatternMatches(kept - rest, pattern) + (if MatchesPattern(u, pattern) then {u} else {})
  {
    assert kept - (rest - {u}) == (kept - rest) + {u};
  }

  /** A URL with a query passes over itself: it has all of its own params and not more. */
  lemma JudgeSelf(url: ParsedUrl)
    requires url.query != ""
    ensures Judge(url, url) == Pass
  {
    CompareWithItself(url);
  }

  /** One more URL `u` through the replacement loop changes the kept set as the loop body does. */
  lemma ReconcileExtend(kept: set<ParsedUrl>, done: set<ParsedUrl>, u: ParsedUrl, url: ParsedUrl)
    requires url.query != "" && u !in done && u in kept
    ensures Judge(u, url) == Displace ==>
              u != url && u in Reconcile(kept, done, url) &&
              Reconcile(kept, done + {u}, url) == Reconcile(kept, done, url) - {u} + {url}
    ensures Judge(u, url) == Coexist ==>
              Reconcile(kept, done + {u}, url) == Reconcile(kept, done, url) + {url}
    ensures Judge(u, url) == Pass ==>
              Reconcile(kept, done + {u}, url) == Reconcile(kept, done, url)
  {
    JudgeSelf(url);
    var d0, d1 := Displaced(done, url), Displaced(done + {u}, url);
    if Judge(u, url) == Displace {
      assert d1 == d0 + {u};
      assert Admitted(done + {u}, url);
    } else {
      assert d1 == d0;
      if Judge(u, url) == Coexist {
        assert Admitted(done + {u}, url);
      } else {
        assert Admitted(done + {u}, url) == Admitted(done, url);
      }
    }
  }

  /**
    The kept URLs, the mutable `unique_urls` set of the program. Each input URL goes
    through `Process`; the class holds no other state.
   */
  class Deduplicator {
    /** `main`'s `ignored_suffixes` and `web_suffixes`. */
    const suffixes: SuffixLists
    var kept: set<ParsedUrl>

    constructor ()
      ensures suffixes == Suffixes && kept == {}
    {
      suffixes := Suffixes;
      kept := {};
    }

    /**
      `get_existing_pattern_urls`: the kept URLs whose stripped path starts with
      `pattern`, each once, in the arbitrary order in which the set is walked.
     */
    method ExistingPatternUrls(pattern: string) returns (results: seq<ParsedUrl>)
      ensures Elements(results) == PatternMatches(kept, pattern)
      ensures Distinct(results)
    {
      results := [];
      var rest := kept;
      while rest != {}
        invariant rest <= kept
        invariant Elements(results) == PatternMatches(kept - rest, pattern)
        invariant Distinct(results)
        decreases |rest|
      {
        var uurl :| uurl in rest;
        var uurlPath := ComputeStrip(uurl.path);
        MatchesGrow(kept, rest, uurl, pattern);
        if StartsWith(uurlPath, pattern) {
          AppendDistinct(results, uurl);
          results := results + [uurl];
        }
        rest := rest - {uurl};
      }
    }

    /** The per-line body of the program's main loop, after the line has been parsed. */
    method Process(url: ParsedUrl)
      modifies this
      ensures kept == Step(suffixes, old(kept), url)
    {
      var urlPath := ComputeStrip(url.path);
      if urlPath == "" {
        kept := kept + {url};
        return;
      }
      var ignored := TestEndsWithAny(urlPath, suffixes.ignored);
      if ignored {
        return;
      }
      var web := TestEndsWithAny(urlPath, suffixes.web);
      if web {
        kept := kept + {url};
        return;
      }
      var pathParts := Split(urlPath, '/');
      if |pathParts| == 1 {
        kept := kept + {url};
        return;
      }
      var urlPattern := Join(pathParts[..|pathParts| - 1], '/');
      var existing := ExistingPatternUrls(urlPattern);
      if existing == [] {
        kept := kept + {url};
      } else {
        assert existing[0] in Elements(existing);
        if url.query != "" {
          ReplaceAmong(existing, url);
        }
      }
    }

    /**
      The replacement loop of the program (lines 193-208): it walks the list of
      matches taken before any change, and every branch moves on to the next match.
     */
    method ReplaceAmong(existing: seq<ParsedUrl>, url: ParsedUrl)
      requires url.query != ""
      requires Elements(existing) <= kept && Distinct(existing)
      modifies this
      ensures kept == Reconcile(old(kept), Elements(existing), url)
    {
      for n := 0 to |existing|
        invariant kept == Reconcile(old(kept), Elements(existing[..n]), url)
      {
        var u := existing[n];
        PrefixElements(existing, n);
        ReconcileExtend(old(kept), Elements(existing[..n]), u, url);
        if u.query == "" {
          assert u in kept;  // `remove` never meets an absent URL
          kept := kept - {u};
          kept := kept + {url};
          continue;
        }
        var allExist := CheckAllParamsExist(u, url);
        if allExist {
          var more := CheckHasMoreParams(u, url);
          if more {
            assert u in kept;
            kept := kept - {u};
            kept := kept + {url};
            continue;
          }
        } else {
          kept := kept + {url};
          continue;
        }
      }
      assert existing[..|existing|] == existing;
    }

    /** The program's main loop over the parsed input lines, in order. */
    method ProcessAll(urls: seq<ParsedUrl>)
      modifies this
      ensures kept == Run(suffixes, old(kept), urls)
    {
      for n := 0 to |urls|
        invariant kept == Run(suffixes, old(kept), urls[..n])
      {
        assert urls[..n + 1][..n] == urls[..n];
        Process(urls[n]);
      }
      assert urls[..|urls|] == urls;
    }
  }
}
