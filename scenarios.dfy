/** What a caller of the engine can rely on from the contracts alone. */
module Scenarios {
  import opened Keys
  import opened Redis

  /** Shortening the same URL twice with no store failure in between: the
      second call is a dedup hit that returns the code of the first, changes
      nothing, and the detail of the first call stays (first write wins,
      whatever expiry the second call asks for). */
  method ShortenTwice(cli: RedisCli, url: string, exp1: int, exp2: int, now1: string, now2: string)
    returns (first: Result<string>, second: Result<string>, ghost code: string)
    requires cli.Valid()
    modifies cli
    ensures cli.Valid()
    ensures first.Ok? ==>
      && UrlHashKey(cli.lib.toSha1(url)) in cli.data
      && code == cli.data[UrlHashKey(cli.lib.toSha1(url))]
      && second == Ok(code)
      && cli.Unshorten(code, false) == Ok(url)
    // The final store is the one the first call left: either untouched (a
    // hit) or the counter plus the first call's three records (a miss). The
    // second call adds nothing to it.
    ensures first.Ok? ==>
      || (cli.data == old(cli.data) && cli.nextUrlId == old(cli.nextUrlId))
      || (&& cli.nextUrlId == old(cli.nextUrlId) + 1
          && cli.data == SetAll(old(cli.data), TripleWrites(cli.lib, url, exp1, now1, code)[..3]))
    ensures first.Ok? && cli.nextUrlId != old(cli.nextUrlId) ==>
      && cli.nextUrlId == old(cli.nextUrlId) + 1
      && code == cli.lib.encode(cli.nextUrlId)
      && cli.ShortlinkInfo(code, false) == first
      && first == Ok(cli.lib.marshal(URLDetail(url, now1, exp1)))
  {
    first := cli.Shorten(url, exp1, now1, {});
    code := if UrlHashKey(cli.lib.toSha1(url)) in cli.data then cli.data[UrlHashKey(cli.lib.toSha1(url))] else "";
    second := cli.Shorten(url, exp2, now2, {});
  }
}
