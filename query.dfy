/**
  Query strings as the deduplicator sees them: a list of keys, one per
  `&`-separated piece, each the text before the piece's first `=`. Values are
  ignored, duplicates are kept, and nothing is decoded.
 */
module Query {
  import opened Text
  import opened Url

  /**
    Python's `piece.split('=')[0]`: the key of one `key=value` piece, which is the
    text of the piece before its first `=` (all of it when there is none).
   */
  function KeyOf(piece: string): (key: string)
    ensures StartsWith(piece, key)
    ensures '=' !in key
    ensures |key| == |piece| || piece[|key|] == '='
  {
    Split(piece, '=')[0]
  }

  /**
    `get_query_params_keys`: one key per `&`-separated piece of the query, in order.
    There is one key more than the query has `&`s, no key holds `&` or `=`, and each
    key is the text of its piece before the piece's first `=`.
   */
  function QueryKeys(query: string): (keys: seq<string>)
    ensures |keys| == Occurrences(query, '&') + 1
    ensures forall n :: 0 <= n < |keys| ==> '&' !in keys[n] && '=' !in keys[n]
    ensures forall n :: 0 <= n < |keys| ==>
              var piece := Split(query, '&')[n];
              StartsWith(piece, keys[n]) && (|keys[n]| == |piece| || piece[|keys[n]|] == '=')
  {
    var pieces := Split(query, '&');
    seq(|pieces|, n requires 0 <= n < |pieces| => KeyOf(pieces[n]))
  }

  /** The `append` loop of `get_query_params_keys`. */
  method CollectQueryKeys(query: string) returns (keys: seq<string>)
    ensures keys == QueryKeys(query)
  {
    keys := [];
    var qparams := Split(query, '&');
    for n := 0 to |qparams|
      invariant |keys| == n
      invariant forall m :: 0 <= m < n ==> keys[m] == KeyOf(qparams[m])
    {
      keys := keys + [Split(qparams[n], '=')[0]];
    }
  }

  /** `is_all_params_exists`: every key of the old URL's query is among the new URL's keys. */
  predicate AllParamsExist(oldUrl: ParsedUrl, newUrl: ParsedUrl) {
    var newKeys := QueryKeys(newUrl.query);
    forall n :: 0 <= n < |QueryKeys(oldUrl.query)| ==> QueryKeys(oldUrl.query)[n] in newKeys
  }

  /** The loop of `is_all_params_exists`, which returns as soon as a key is missing. */
  method CheckAllParamsExist(oldUrl: ParsedUrl, newUrl: ParsedUrl) returns (b: bool)
    ensures b == AllParamsExist(oldUrl, newUrl)
  {
    var oldKeys := CollectQueryKeys(oldUrl.query);
    var newKeys := CollectQueryKeys(newUrl.query);
    for n := 0 to |oldKeys|
      invariant forall m :: 0 <= m < n ==> oldKeys[m] in newKeys
    {
      if oldKeys[n] !in newKeys {
        return false;
      }
    }
    return true;
  }

  /** `has_more_params`: the new URL's query has more keys, duplicates counted, than the old one's. */
  predicate HasMoreParams(oldUrl: ParsedUrl, newUrl: ParsedUrl) {
    |QueryKeys(newUrl.query)| > |QueryKeys(oldUrl.query)|
  }

  /** `has_more_params` as the program writes it: both key lists are built, then their lengths compared. */
  method CheckHasMoreParams(oldUrl: ParsedUrl, newUrl: ParsedUrl) returns (b: bool)
    ensures b == HasMoreParams(oldUrl, newUrl)
  {
    var oldKeys := CollectQueryKeys(oldUrl.query);
    var newKeys := CollectQueryKeys(newUrl.query);
    b := |newKeys| > |oldKeys|;
  }

  /** An empty query still yields one key, the empty one. */
  lemma EmptyQueryKeys()
    ensures QueryKeys("") == [""]
  {
    assert Split("", '&') == [""];
  }

  /** Having more params is having more `&`s: the keys themselves play no part. */
  lemma HasMoreParamsCountsAmpersands(oldUrl: ParsedUrl, newUrl: ParsedUrl)
    ensures HasMoreParams(oldUrl, newUrl) <==>
            Occurrences(newUrl.query, '&') > Occurrences(oldUrl.query, '&')
  {
  }

  /** Every URL has all the params of itself, and not more of them. */
  lemma CompareWithItself(u: ParsedUrl)
    ensures AllParamsExist(u, u)
    ensures !HasMoreParams(u, u)
  {
  }

  /** Having all the params of another URL is transitive. */
  lemma AllParamsExistTransitive(a: ParsedUrl, b: ParsedUrl, c: ParsedUrl)
    requires AllParamsExist(a, b) && AllParamsExist(b, c)
    ensures AllParamsExist(a, c)
  {
  }
}
