/**
  The result of Python's `urllib.parse.urlparse`, taken as given: the deduplicator
  never parses a URL itself, it only reads the path and the query of the parsed
  record, and it keeps and compares whole records by value.
 */
module Url {

  /** The six components of a `ParseResult`, in their Python order. */
  datatype ParsedUrl = ParsedUrl(
    scheme: string,
    netloc: string,
    path: string,
    params: string,
    query: string,
    fragment: string)
}
