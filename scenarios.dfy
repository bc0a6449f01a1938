/**
  Worked examples of the deduplicator on two URLs in a row, from nothing kept,
  over the program's own suffix lists: `/shop/view` with various queries, where
  the second URL is judged against the first, and `/a/index.php`, a web page.
  Each example is stated for every query of the shape it illustrates.
 */
module Scenarios {
  import opened Text
  import opened Url
  import opened Query
  import opened Uddup

  /** A URL on `/shop/view` with the given query. */
  function ShopView(query: string): ParsedUrl {
    ParsedUrl("https", "example.com", "/shop/view", "", query, "")
  }

  /** `s` ends with `tail` and no entry of `suffixes` does: then `s` ends with none of them. */
  lemma NotEndingInAny(s: string, tail: string, suffixes: seq<string>)
    requires EndsWith(s, tail)
    requires forall i :: 0 <= i < |suffixes| ==> |suffixes[i]| >= |tail| && !EndsWith(suffixes[i], tail)
    ensures !EndsWithAny(s, suffixes)
  {
    EndsWithAnyIff(s, suffixes);
  }

  /** No ignored suffix ends in `w`. */
  lemma IgnoredNotW()
    ensures forall i :: 0 <= i < |IgnoredSuffixes| ==>
              |IgnoredSuffixes[i]| >= 1 && !EndsWith(IgnoredSuffixes[i], "w")
  {
  }

  /** No web suffix ends in `w`. */
  lemma WebNotW()
    ensures forall i :: 0 <= i < |WebSuffixes| ==>
              |WebSuffixes[i]| >= 1 && !EndsWith(WebSuffixes[i], "w")
  {
  }

  /** The stripped path of `/shop/view`. */
  lemma ShopViewPath()
    ensures Strip("/shop/view") == "shop/view"
  {
  }

  /** `shop/view` ends with no ignored and no web suffix. */
  lemma ShopViewNeither()
    ensures !EndsWithAny("shop/view", IgnoredSuffixes)
    ensures !EndsWithAny("shop/view", WebSuffixes)
  {
    IgnoredNotW();
    WebNotW();
    NotEndingInAny("shop/view", "w", IgnoredSuffixes);
    NotEndingInAny("shop/view", "w", WebSuffixes);
  }

  /** In `before + [sep] + after` with no `sep` in `before`, the first `sep` is the one between them. */
  lemma {:induction false} IndexOfFirst(before: string, after: string, sep: char)
    requires sep !in before
    ensures IndexOf(before + [sep] + after, sep) == |before|
    decreases |before|
  {
    var s := before + [sep] + after;
    if |before| > 0 {
      assert s[1..] == before[1..] + [sep] + after;
      IndexOfFirst(before[1..], after, sep);
    }
  }

  /** A string with one separator splits into the text before it and the text after it. */
  lemma SplitAtOnly(before: string, after: string, sep: char)
    requires sep !in before && sep !in after
    ensures Split(before + [sep] + after, sep) == [before, after]
  {
    var s := before + [sep] + after;
    assert s[..|before|] == before && s[|before| + 1..] == after;
    IndexOfFirst(before, after, sep);
    SplitSingle(after, sep);
  }

  /**
    `shop/view` is its two segments joined by a slash. Kept apart from `ShopViewSplit`
    so that the literal is compared outside the context where `Split` of it unfolds.
   */
  lemma ShopViewText()
    ensures "shop" + ['/'] + "view" == "shop/view"
  {
  }

  /** `shop/view` has the two segments `shop` and `view`, so its pattern is `shop`. */
  lemma ShopViewSplit()
    ensures Split("shop/view", '/') == ["shop", "view"]
    ensures UrlPattern(["shop", "view"]) == "shop"
  {
    ShopViewText();
    SplitAtOnly("shop", "view", '/');
  }

  /** `/shop/view` is compared with the kept URLs of pattern `shop`, whatever its query. */
  lemma ShopViewRoute(query: string)
    ensures RouteOf(Suffixes, ShopView(query)) == ByPattern("shop")
  {
    ShopViewPath();
    ShopViewNeither();
    ShopViewSplit();
  }

  /** A query without `&` is a single piece, with a single key. */
  lemma OnePiece(piece: string)
    requires '&' !in piece
    ensures QueryKeys(piece) == [KeyOf(piece)]
  {
    SplitSingle(piece, '&');
    assert Split(piece, '&') == [piece];
  }

  /** A query with one `&` has the keys of its two pieces, in order. */
  lemma TwoPieces(p1: string, p2: string)
    requires '&' !in p1 && '&' !in p2
    ensures QueryKeys(p1 + ['&'] + p2) == [KeyOf(p1), KeyOf(p2)]
  {
    SplitAtOnly(p1, p2, '&');
  }

  /** The replacement loop over a single kept URL `u`. */
  lemma ReconcileOne(u: ParsedUrl, url: ParsedUrl)
    requires url.query != ""
    ensures Reconcile({u}, {u}, url) ==
              match Judge(u, url)
                case Displace => {url}
                case Coexist => {u, url}
                case Pass => {u}
  {
    JudgeSelf(url);
    assert Displaced({u}, url) == if Judge(u, url) == Displace then {u} else {};
    assert Admitted({u}, url) <==> Judge(u, url) != Pass;
  }

  /** From nothing kept, a URL on `/shop/view` is kept. */
  lemma ShopViewFirst(q1: string)
    ensures Run(Suffixes, {}, [ShopView(q1)]) == {ShopView(q1)}
  {
    assert [ShopView(q1)][..0] == [];
    ShopViewRoute(q1);
  }

  /** A second URL on `/shop/view` is judged against the first alone. */
  lemma ShopViewSecond(sfx: SuffixLists, q1: string, q2: string)
    requires RouteOf(sfx, ShopView(q2)) == ByPattern("shop")
    ensures var u1, u2 := ShopView(q1), ShopView(q2);
            Step(sfx, {u1}, u2) ==
              if q2 == "" then {u1}
              else match Judge(u1, u2)
                case Displace => {u2}
                case Coexist => {u1, u2}
                case Pass => {u1}
  {
    var u1, u2 := ShopView(q1), ShopView(q2);
    ShopViewPath();
    assert MatchesPattern(u1, "shop");
    assert PatternMatches({u1}, "shop") == {u1};
    if q2 != "" {
      ReconcileOne(u1, u2);
    }
  }

  /**
    Two URLs on `/shop/view` in a row, from nothing kept: the first is kept, and the
    second is judged against it alone.
   */
  lemma ShopViewPair(q1: string, q2: string)
    ensures var u1, u2 := ShopView(q1), ShopView(q2);
            Run(Suffixes, {}, [u1, u2]) ==
              if q2 == "" then {u1}
              else match Judge(u1, u2)
                case Displace => {u2}
                case Coexist => {u1, u2}
                case Pass => {u1}
  {
    var u1, u2 := ShopView(q1), ShopView(q2);
    assert [u1, u2][..1] == [u1];
    ShopViewFirst(q1);
    ShopViewRoute(q2);
    ShopViewSecond(Suffixes, q1, q2);
  }

  /**
    `?id=1` then `?id=2`, and any two single-piece queries with the same key: the
    second passes over the first, and only the first is kept.
   */
  lemma SameKeyDropped(q1: string, q2: string)
    requires q1 != ""
    requires '&' !in q1 && '&' !in q2 && KeyOf(q1) == KeyOf(q2)
    ensures Run(Suffixes, {}, [ShopView(q1), ShopView(q2)]) == {ShopView(q1)}
  {
    ShopViewPair(q1, q2);
    OnePiece(q1);
    OnePiece(q2);
  }

  /**
    `?id=1` then `?id=1&cat=2`, and any single-piece query followed by a query of two
    pieces whose first has the same key: the second has all the keys of the first
    and more of them, so it replaces the first.
   */
  lemma MoreKeysReplace(q1: string, p1: string, p2: string)
    requires '&' !in q1 && '&' !in p1 && '&' !in p2 && KeyOf(p1) == KeyOf(q1)
    ensures Run(Suffixes, {}, [ShopView(q1), ShopView(p1 + ['&'] + p2)]) == {ShopView(p1 + ['&'] + p2)}
  {
    var q2 := p1 + ['&'] + p2;
    ShopViewPair(q1, q2);
    OnePiece(q1);
    TwoPieces(p1, p2);
    assert Judge(ShopView(q1), ShopView(q2)) == Displace;
  }

  /** `/shop/view` without a query, then `?id=1` or any other query: the query-less URL is replaced. */
  lemma QuerylessReplaced(q: string)
    requires q != ""
    ensures Run(Suffixes, {}, [ShopView(""), ShopView(q)]) == {ShopView(q)}
  {
    ShopViewPair("", q);
  }

  /**
    `?id=1` then `?cat=2`, and any two non-empty single-piece queries with different
    keys: neither has the other's key, so both are kept.
   */
  lemma DisjointKeysBothKept(q1: string, q2: string)
    requires q1 != "" && q2 != ""
    requires '&' !in q1 && '&' !in q2 && KeyOf(q1) != KeyOf(q2)
    ensures Run(Suffixes, {}, [ShopView(q1), ShopView(q2)]) == {ShopView(q1), ShopView(q2)}
  {
    ShopViewPair(q1, q2);
    OnePiece(q1);
    OnePiece(q2);
    assert QueryKeys(q1)[0] !in QueryKeys(q2);
  }

  /** A URL on `/a/index.php` with the given query. */
  function IndexPage(query: string): ParsedUrl {
    ParsedUrl("https", "example.com", "/a/index.php", "", query, "")
  }

  /** No ignored suffix ends in `hp`. */
  lemma IgnoredNotHp()
    ensures forall i :: 0 <= i < |IgnoredSuffixes| ==>
              |IgnoredSuffixes[i]| >= 2 && !EndsWith(IgnoredSuffixes[i], "hp")
  {
  }

  /** The stripped path of `/a/index.php`. */
  lemma IndexPagePath()
    ensures Strip("/a/index.php") == "a/index.php"
  {
  }

  /** `a/index.php` ends with no ignored suffix. */
  lemma IndexPageNotIgnored()
    ensures !EndsWithAny("a/index.php", IgnoredSuffixes)
  {
    IgnoredNotHp();
    NotEndingInAny("a/index.php", "hp", IgnoredSuffixes);
  }

  /** `a/index.php` ends with the web suffix `php`. */
  lemma IndexPageIsWeb()
    ensures EndsWithAny("a/index.php", WebSuffixes)
  {
    assert WebSuffixes[10] == "php";
    assert EndsWith("a/index.php", WebSuffixes[10]);
    EndsWithAnyIff("a/index.php", WebSuffixes);
  }

  /** `/a/index.php` is a web page and is kept whatever its query. */
  lemma IndexPageRoute(query: string)
    ensures RouteOf(Suffixes, IndexPage(query)) == Keep
  {
    IndexPagePath();
    IndexPageNotIgnored();
    IndexPageIsWeb();
  }

  /** Two URLs that are kept as they are, from nothing kept, are both kept. */
  lemma BothKept(sfx: SuffixLists, u1: ParsedUrl, u2: ParsedUrl)
    requires RouteOf(sfx, u1) == Keep && RouteOf(sfx, u2) == Keep
    ensures Run(sfx, {}, [u1, u2]) == {u1, u2}
  {
    assert [u1, u2][..1] == [u1] && [u1][..0] == [];
    assert Run(sfx, {}, [u1]) == {u1};
  }

  /** `/a/index.php?x=1` then `/a/index.php?x=2`, and any two queries: web pages are all kept. */
  lemma WebPagesAllKept(q1: string, q2: string)
    ensures Run(Suffixes, {}, [IndexPage(q1), IndexPage(q2)]) == {IndexPage(q1), IndexPage(q2)}
  {
    IndexPageRoute(q1);
    IndexPageRoute(q2);
    BothKept(Suffixes, IndexPage(q1), IndexPage(q2));
  }
}
