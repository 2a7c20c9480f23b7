/** The Redis key layout shared by Shorten, Unshorten and ShortlinkInfo.
    Each key family is a format string with one `%s` hole; a family is
    modelled as a prefix and a suffix around the filled-in text. */
module Keys {

  /** The integer key holding the last allocated id. */
  const UrlIdKey: string := "next.url.id"

  const ShortLinkPrefix: string := "shortlink:"
  const UrlHashPrefix: string := "urlhash:"
  const UrlSuffix: string := ":url"
  const DetailSuffix: string := ":detail"

  /** `shortlink:%s:url`: code -> original URL. */
  function ShortLinkKey(eid: string): string {
    ShortLinkPrefix + eid + UrlSuffix
  }

  /** `urlhash:%s:url`: URL fingerprint -> code. */
  function UrlHashKey(h: string): string {
    UrlHashPrefix + h + UrlSuffix
  }

  /** `shortlink:%s:detail`: code -> marshalled detail record. */
  function ShortlinkDetailKey(eid: string): string {
    ShortLinkPrefix + eid + DetailSuffix
  }

  /** Filling the hole of one format string is injective. */
  lemma FillInjective(p: string, q: string, a: string, b: string)
    requires p + a + q == p + b + q
    ensures a == b
  {
    var s, t := p + a + q, p + b + q;
    assert |a| == |b|;
    assert s[|p|..|p| + |a|] == a;
    assert t[|p|..|p| + |b|] == b;
  }

  lemma ShortLinkKeyInjective(a: string, b: string)
    ensures ShortLinkKey(a) == ShortLinkKey(b) <==> a == b
  {
    if ShortLinkKey(a) == ShortLinkKey(b) {
      FillInjective(ShortLinkPrefix, UrlSuffix, a, b);
    }
  }

  lemma UrlHashKeyInjective(a: string, b: string)
    ensures UrlHashKey(a) == UrlHashKey(b) <==> a == b
  {
    if UrlHashKey(a) == UrlHashKey(b) {
      FillInjective(UrlHashPrefix, UrlSuffix, a, b);
    }
  }

  lemma ShortlinkDetailKeyInjective(a: string, b: string)
    ensures ShortlinkDetailKey(a) == ShortlinkDetailKey(b) <==> a == b
  {
    if ShortlinkDetailKey(a) == ShortlinkDetailKey(b) {
      FillInjective(ShortLinkPrefix, DetailSuffix, a, b);
    }
  }

  /** No two families share a key, and none of them is the counter key:
      every write of Shorten lands in the family it is meant for. */
  lemma KeyFamiliesDisjoint(a: string, b: string)
    ensures ShortLinkKey(a) != UrlHashKey(b)
    ensures ShortLinkKey(a) != ShortlinkDetailKey(b)
    ensures UrlHashKey(a) != ShortlinkDetailKey(b)
    ensures ShortLinkKey(a) != UrlIdKey
    ensures UrlHashKey(a) != UrlIdKey
    ensures ShortlinkDetailKey(a) != UrlIdKey
  {
    // The families differ in their first character ('s', 'u', 'n') ...
    assert ShortLinkKey(a)[0] == 's' && ShortlinkDetailKey(b)[0] == 's';
    assert UrlHashKey(a)[0] == 'u' && UrlHashKey(b)[0] == 'u';
    assert ShortlinkDetailKey(a)[0] == 's' && UrlIdKey[0] == 'n';
    // ... or, for the two `shortlink:` families, in their last four characters.
    var u, d := ShortLinkKey(a), ShortlinkDetailKey(b);
    assert u[|u| - 4..] == UrlSuffix;
    assert d[|d| - 4..] == "tail";
  }
}
