/**
 * How the server's list handlers read their query arguments: an integer
 * argument with a default, and the page size capped at 100.
 */
module Pagination {

  import opened Wrappers
  import Text
  import HttpClient

  const MaxPerPage := 100

  /**
   * `request.args.get(key, default, type=int)`: the argument read as a decimal
   * integer, or the default when it is missing or does not convert.
   */
  function ArgInt(args: seq<(string, string)>, key: string, default: int): (n: int)
    ensures HttpClient.Arg(args, key).None? ==> n == default
    ensures HttpClient.Arg(args, key).Some? && Text.ParseInt(HttpClient.Arg(args, key).value).Some? ==>
      n == Text.ParseInt(HttpClient.Arg(args, key).value).value
    ensures HttpClient.Arg(args, key).Some? && Text.ParseInt(HttpClient.Arg(args, key).value).None? ==> n == default
  {
    match HttpClient.Arg(args, key)
    case None => default
    case Some(raw) => Text.ParseInt(raw).GetOr(default)
  }

  /** The page size of a listing: the requested one, or the default, and never above 100. */
  function PageSize(args: seq<(string, string)>, default: int): (n: int)
    ensures n <= MaxPerPage
    ensures n == ArgInt(args, "per_page", default) || n == MaxPerPage
    ensures ArgInt(args, "per_page", default) <= MaxPerPage ==> n == ArgInt(args, "per_page", default)
  {
    var requested := ArgInt(args, "per_page", default);
    if requested < MaxPerPage then requested else MaxPerPage
  }

  /** A listing before pagination: the page number, the clamped page size, and the ordered rows. */
  datatype Listing<T> = Listing(page: int, perPage: int, items: seq<T>)
}
