# uddup: URL pattern deduplication, modelled in Dafny

uddup reads a list of URLs and keeps one representative per "URL pattern". For
each URL it strips the slashes from both ends of the path. It then does one of
four things to the set of kept URLs:

- it drops the URL when the path ends in an ignored suffix (images, fonts, style
  sheets, archives and suchlike);
- it keeps the URL unconditionally when the path is empty, ends in a web-page
  suffix, has only one segment, or has a pattern no kept URL matches. The pattern
  is the path without its last segment, and matching is a plain string prefix;
- it drops the URL when it has no query and some kept URL matches its pattern;
- otherwise it runs a replacement loop over the matching kept URLs:
  - a kept URL without a query is replaced by the new URL;
  - a kept URL whose query keys all occur among the new URL's keys, and which has
    fewer keys, is replaced by it;
  - a kept URL with a key the new URL lacks makes the new URL be kept beside it.

The model is organised as follows.

- `Text` writes out the Python string operations the program relies on:
  `strip('/')`, `startswith`, `endswith` with a tuple, `split` and `join` on one
  character. Each is a function with its defining properties. `strip` and the
  tuple `endswith` also have loop methods proved equal to their functions.
- `Url` is the parse result, a record of six strings compared as a whole.
- `Query` holds the query-key helpers. `QueryKeys`, `AllParamsExist` and
  `HasMoreParams` are functions, each paired with a method written the way the
  program computes it: `CollectQueryKeys` and `CheckAllParamsExist` are loops, and
  `CheckHasMoreParams` builds both key lists and compares their lengths. `KeyOf`,
  the key of one piece, is a function only; the loop in `CollectQueryKeys`
  computes it inline, as the program does.
- `Uddup` holds the two suffix tuples and the pure decision `Step` for one URL.
  `Run` applies `Step` to a sequence of URLs. The class `Deduplicator` holds the
  kept set (`unique_urls`). Its method `Process` has the program's branches and
  loops, and is proved to leave the kept set equal to `Step` of the old one.
- `Properties` proves what the program promises about `Step` and `Run`.
- `Scenarios` works through example inputs against the program's own suffix
  tuples. Each example is stated for every query of the shape it illustrates.

The suffix tuples are a parameter (`SuffixLists`) of `Step`, `Run` and the class.
The class is built with the program's tuples. Lemmas that need particular entries
(`xml`, `do`, `php`) are stated over those tuples.

## Model

| member | source | states |
|---|---|---|
| Text.Strip | uddup.py:118 | `s.strip('/')` is the infix of `s` left once the leading and trailing slashes are gone; it neither starts nor ends with a slash |
| Text.ComputeStrip | uddup.py:164 | the loop that trims both ends computes `Strip` |
| Text.EndsWithAnyIff | uddup.py:173 | `endswith(tuple)` holds exactly when some entry of the tuple is a plain string suffix |
| Text.TestEndsWithAny | uddup.py:177 | the loop over a suffix tuple with an early exit decides `EndsWithAny` |
| Text.Split | uddup.py:182 | `split(sep)` gives one piece more than there are separators, and no piece holds the separator |
| Text.JoinSplit | uddup.py:182-187 | joining the pieces of a split with the separator gives back the string |
| Text.SplitSingle | uddup.py:183 | a string splits into a single piece exactly when it holds no separator |
| Text.SplitAtLast | uddup.py:182-187 | a string holding the separator is the join of its pieces but the last, the separator, and the last piece, which holds no separator |
| Text.JoinInit | uddup.py:187 | joining all pieces is joining all but the last, then the separator, then the last piece |
| Query.KeyOf | uddup.py:129 | the key of a piece is its text before the first `=` (all of it when there is none), and it holds no `=` |
| Query.QueryKeys | uddup.py:125-131 | one key per `&`-separated piece, in order; there are (number of `&`) + 1 keys; no key holds `&` or `=`; each key is its piece's text before the first `=` |
| Query.CollectQueryKeys | uddup.py:125-131 | the `append` loop computes `QueryKeys` |
| Query.EmptyQueryKeys | uddup.py:127-129 | an empty query yields the single key `""` |
| Query.AllParamsExist | uddup.py:134-142 | defines `is_all_params_exists`: every key in the old URL's key list occurs in the new URL's key list |
| Query.CheckAllParamsExist | uddup.py:134-142 | the loop with an early `return False` is true exactly when every key of the old URL occurs among the new URL's keys |
| Query.HasMoreParams | uddup.py:145-148 | defines `has_more_params`: the new URL's key list is longer than the old one's |
| Query.CheckHasMoreParams | uddup.py:145-148 | building both key lists and comparing their lengths computes `HasMoreParams` |
| Query.HasMoreParamsCountsAmpersands | uddup.py:145-148 | the new URL has more params exactly when its query has more `&`s; duplicates count |
| Query.CompareWithItself | uddup.py:134-148 | every URL has all of its own params and not more of them: the first test is reflexive, the second irreflexive |
| Query.AllParamsExistTransitive | uddup.py:134-142 | having all the params of another URL is transitive |
| Uddup.UrlPattern | uddup.py:187 | defines the pattern: the path segments but the last, joined with `/` |
| Uddup.MatchesPattern | uddup.py:118-119 | defines membership of a pattern: the kept URL's stripped path starts with the pattern, as a plain string |
| Uddup.PatternMatches | uddup.py:115-122 | the URLs collected for a pattern are a subset of the kept set |
| Uddup.Judge | uddup.py:195-208 | defines the loop body's verdict on one match: a query-less match is displaced; a match whose keys all occur in the new URL's is displaced when the new URL has more keys and is passed over otherwise; any other match makes the new URL be added beside it |
| Uddup.Displaced | uddup.py:193-205 | the URLs the replacement loop removes are among the matches |
| Uddup.Admitted | uddup.py:195-208 | defines when the loop adds the new URL: some match has a verdict other than passing over |
| Uddup.Reconcile | uddup.py:193-208 | defines the kept set after the loop: the displaced matches removed, and the new URL added when it is admitted |
| Uddup.RouteOf | uddup.py:164-187 | defines the tests on the stripped path, in the program's order: empty keeps, an ignored suffix drops, a web suffix keeps, a single segment keeps, anything else goes by its pattern |
| Uddup.Step | uddup.py:164-208 | defines the decision for one URL: the route, then, by pattern, adding when nothing matches, nothing for a query-less URL, and `Reconcile` otherwise |
| Uddup.Run | uddup.py:156-208 | defines the kept set after feeding a list of URLs to `Step` in order |
| Uddup.JudgeSelf | uddup.py:192-205 | a URL with a query never displaces itself and is never added because of itself |
| Uddup.ReconcileExtend | uddup.py:193-208 | one more match through the loop body: a removal takes out that match (which is still kept, so `remove` finds it) and adds the new URL; an extra key adds the new URL; otherwise nothing changes |
| Uddup.Deduplicator.ExistingPatternUrls | uddup.py:115-122 | the collected list holds exactly the kept URLs whose stripped path starts with the pattern, each once |
| Uddup.Deduplicator.Process | uddup.py:161-208 | the per-URL body of `main` leaves the kept set equal to `Step` of the old one |
| Uddup.Deduplicator.ReplaceAmong | uddup.py:193-208 | the replacement loop over the snapshot of matches, with its `continue`s, leaves the kept set equal to `Reconcile` of the old one |
| Uddup.Deduplicator.ProcessAll | uddup.py:156-208 | the main loop over the parsed URLs leaves the kept set equal to `Run` of the old one |
| Uddup.Deduplicator.constructor | uddup.py:152-153 | the deduplicator starts empty, with the program's two suffix tuples |
| Properties.PatternBeforeLastSlash | uddup.py:182-187 | the pattern is the stripped path's text before its last `/`, a non-empty proper prefix of the path |
| Properties.SegmentsIffSlash | uddup.py:182-185 | a stripped path has two segments or more exactly when it holds a `/` |
| Properties.RouteCases | uddup.py:164-187 | the URL is dropped exactly when its stripped path is non-empty with an ignored suffix; it goes by its pattern exactly when the path is non-empty, has neither kind of suffix and holds a `/`; the URL then matches its own pattern |
| Properties.RootMatchesNoPattern | uddup.py:115-122 | a URL with an empty stripped path matches no pattern |
| Properties.StepWithin | uddup.py:164-208 | afterwards the kept set holds nothing but what it held before and the new URL |
| Properties.IgnoredKeepsSet | uddup.py:173-174 | a stripped path with an ignored suffix leaves the kept set as it is |
| Properties.IgnoredSuffixesShape | uddup.py:49-80 | `get_ignored_suffixes` (the constant `Uddup.IgnoredSuffixes`) has 29 entries, each non-empty and without a dot |
| Properties.WebSuffixesShape | uddup.py:83-112 | `get_web_suffixes` (the constant `Uddup.WebSuffixes`) has 27 entries, each non-empty and without a dot |
| Properties.XmlIsIgnored | uddup.py:58 | `xml` is in both tuples, and any string ending in `xml` has an ignored suffix |
| Properties.XmlAlwaysDropped | uddup.py:173-179 | because the ignored test comes first, a path ending in `xml` is always dropped, although `xml` is also a web suffix (line 102) |
| Properties.WebSuffixNeedsNoDot | uddup.py:101 | suffixes are bare string suffixes: any path ending in `do`, such as `a/todo`, ends in a web suffix |
| Properties.PatternIgnoresSegments | uddup.py:119 | pattern matching is a plain string prefix: `a/bc/d` belongs to the pattern `a/b` |
| Properties.AddedUnconditionally | uddup.py:168-191 | the URL is added when its path is empty, or, the path having no ignored suffix, when it has a web suffix, has a single segment, or has a pattern no kept URL matches |
| Properties.QuerylessMatchedDropped | uddup.py:190-192 | a query-less URL whose pattern some kept URL matches leaves the kept set as it is |
| Properties.ReconcileFacts | uddup.py:192-208 | for a URL with a query: every query-less match is removed; so is every match whose keys all occur in the new URL's keys and which has fewer keys; every other kept URL stays; the new URL is kept exactly when it was kept before, or some match was removed, or some match has a key the new URL lacks |
| Properties.ReplacementLoop | uddup.py:189-208 | in the branch that runs the loop, `Step` is `Reconcile` over the matches of the URL's own pattern |
| Properties.StepIdempotent | uddup.py:164-208 | the same URL given twice in a row changes nothing the second time |
| Properties.AgainAfterReconcile | uddup.py:193-208 | running the replacement loop again over what it left finds nothing to remove and nothing to add |
| Properties.RootUrlKept | uddup.py:168-170 | a URL with an empty stripped path is added, and no later URL removes it |
| Properties.RootUrlsSurvive | uddup.py:156-170 | every URL with an empty stripped path that is given is kept at the end of a run, however many there are |
| Properties.IgnoredNeverKept | uddup.py:173-174 | a URL with an ignored suffix is never kept, however often it is given |
| Properties.RunWithin | uddup.py:156-208 | over a whole run nothing but the given URLs is kept |
| Scenarios.NotEndingInAny | uddup.py:173 | a string ends with none of a tuple's suffixes when its own ending is the ending of none of them |
| Scenarios.ShopViewRoute | uddup.py:164-187 | `/shop/view` has neither kind of suffix and is compared with the kept URLs of the pattern `shop` |
| Scenarios.ShopViewPair | uddup.py:189-208 | of two URLs on `/shop/view` in a row, the first is kept and the second is judged against it alone |
| Scenarios.SameKeyDropped | uddup.py:201-205 | `?id=1` then `?id=2` (one key, the same): only the first is kept |
| Scenarios.MoreKeysReplace | uddup.py:201-205 | `?id=1` then `?id=1&cat=2` (all the old keys and more): only the second is kept |
| Scenarios.QuerylessReplaced | uddup.py:195-198 | `/shop/view` without a query, then with one: only the second is kept |
| Scenarios.DisjointKeysBothKept | uddup.py:206-208 | `?id=1` then `?cat=2` (different keys): both are kept |
| Scenarios.WebPagesAllKept | uddup.py:177-179 | `/a/index.php` with any two queries: both are kept |

## Left out

- `urlparse` (uddup.py:161) is a library parser. The parse result is an input record, compared as a whole, and `geturl()` (uddup.py:217) is not modelled.
- Reading the input file line by line is I/O and is not modelled. This includes dropping the line ending and skipping blank lines (uddup.py:155-159). `ProcessAll` takes the parsed records in order.
- `print_results` (uddup.py:211-223) is left out: sorting the kept records, writing the output file and printing them are output.
- The banner, console colours, `file_arg` and the `argparse` setup (uddup.py:8-46, 226-237) are command-line glue and are left out.
- `unique_urls` is a module global in the program (uddup.py:239). In the model it is the `kept` field of a `Deduplicator` object.
- Python's set iteration order in `get_existing_pattern_urls` is not modelled. `ExistingPatternUrls` picks any URL not yet looked at. This costs nothing, because `Step`'s result does not depend on the order of the matches. The reason is that a URL never displaces itself (`JudgeSelf`).
- Python strings are sequences of code points. The model's `string` is Dafny's `seq<char>`.
- The replacement loop is modelled as the code has it. After a query-less match is replaced (uddup.py:198), the loop moves on to the next match with `continue` instead of stopping.
- "More params" is modelled as the code has it: a comparison of key-list lengths with duplicate keys counted (uddup.py:148), not a count of distinct keys.
- The scenario lemmas are stated for all queries with the shape of the worked examples (one `key=value` piece, or two). The literal queries `id=1`, `id=2`, `cat=2` and `id=1&cat=2` are instances of them and are not stated separately.
