/** The shortlink engine of redis.go: a Redis-backed client whose Shorten
    deduplicates URLs by fingerprint, allocates codes from a global counter
    and writes three records per new code, and whose Unshorten and
    ShortlinkInfo resolve a code by reading one key each.

    Redis is modelled by the part of its keyspace the engine uses: a map of
    string keys and the integer stored under `next.url.id`.  A failing Redis
    call is an input: `faults` names the calls that fail. */
module Redis {
  import opened Keys

  /** Largest value of a Redis integer; INCR beyond it is refused. */
  const MaxInt64: int := 0x7fff_ffff_ffff_ffff

  /** Text of the error Redis reports for a missing key. */
  const RedisNil: string := "redis: nil"

  /** Text of the error ShortlinkInfo reports for an unknown code. */
  const UnknownShortUrl: string := "Unknown short URL"

  /** A stored fingerprint entry with this value is read as "no entry". */
  const Placeholder: string := "{}"

  /** The characters of a base-62 code: digits, lower case, upper case. */
  predicate IsBase62Char(c: char) {
    ('0' <= c <= '9') || ('a' <= c <= 'z') || ('A' <= c <= 'Z')
  }

  predicate IsBase62(s: string) {
    forall i :: 0 <= i < |s| ==> IsBase62Char(s[i])
  }

  /** The metadata stored under `shortlink:<code>:detail`. */
  datatype URLDetail = URLDetail(url: string, createdAt: string, expirationInMinutes: int)

  /** The Redis calls the engine makes. */
  datatype Call =
    | GetHash   // GET urlhash:<h>:url
    | IncrId    // INCR next.url.id
    | GetId     // GET next.url.id
    | SetUrl    // SET shortlink:<code>:url
    | SetHash   // SET urlhash:<h>:url
    | SetDetail // SET shortlink:<code>:detail
    | GetUrl    // GET shortlink:<code>:url
    | GetDetail // GET shortlink:<code>:detail

  datatype Error =
    | StatusError(code: int, message: string)  // a domain error with an HTTP status
    | StoreError(failed: Call)                 // a Redis error, passed through as it is

  datatype Result<T> = Ok(value: T) | Err(error: Error)

  /** The reply to a GET: the value, redis.Nil for a missing key, or a failure. */
  datatype Reply = Value(text: string) | Nil | Failed

  function Get(data: map<string, string>, key: string, failing: bool): Reply {
    if failing then Failed
    else if key in data then Value(data[key])
    else Nil
  }

  /** The library code the engine calls but that is not part of this model:
      the SHA-1 fingerprint, base62.Encode and json.Marshal of a detail. */
  datatype Library = Library(
    toSha1: string -> string,
    encode: int -> string,
    marshal: URLDetail -> string)
  {
    /** What the engine relies on: toSha1 is assumed injective on all
        strings (an idealisation no fixed-size digest meets; collisions are
        treated as negligible), and distinct positive ids encode to distinct
        base-62 codes. */
    ghost predicate Assumed() {
      && (forall u, v :: toSha1(u) == toSha1(v) ==> u == v)
      && (forall i, j :: 1 <= i && 1 <= j && encode(i) == encode(j) ==> i == j)
      && (forall i :: 1 <= i ==> IsBase62(encode(i)))
    }
  }

  /** A code is issued once the counter has reached an id that encodes to it. */
  ghost predicate Issued(lib: Library, n: int, eid: string) {
    exists i :: 1 <= i <= n && lib.encode(i) == eid
  }

  /** The dedup entry `h -> eid` is sound: eid's URL record holds a URL whose
      fingerprint is h. */
  ghost predicate Resolves(lib: Library, data: map<string, string>, h: string, eid: string) {
    ShortLinkKey(eid) in data && lib.toSha1(data[ShortLinkKey(eid)]) == h
  }

  /** The store invariant Shorten keeps, partial writes included: every code
      with a record was issued by the counter, and every dedup entry other
      than the placeholder names a live URL record for that fingerprint.
      The counter key is not among the string keys: it lives in `nextUrlId`. */
  ghost predicate Consistent(lib: Library, data: map<string, string>, n: int) {
    && 0 <= n <= MaxInt64
    && UrlIdKey !in data
    && (forall eid :: ShortLinkKey(eid) in data ==> Issued(lib, n, eid))
    && (forall eid :: ShortlinkDetailKey(eid) in data ==> Issued(lib, n, eid))
    && (forall h :: UrlHashKey(h) in data && data[UrlHashKey(h)] != Placeholder ==>
          Resolves(lib, data, h, data[UrlHashKey(h)]))
  }

  /** Outcome of the dedup probe of Shorten. */
  datatype Probe = Hit(code: string) | Miss | ProbeFailed

  /** The dedup probe: a missing entry and the placeholder are both a miss. */
  function DedupLookup(data: map<string, string>, h: string, failing: bool): (p: Probe)
    ensures p == ProbeFailed <==> failing
    ensures p.Hit? <==> !failing && UrlHashKey(h) in data && data[UrlHashKey(h)] != Placeholder
    ensures p.Hit? ==> p.code == data[UrlHashKey(h)]
  {
    match Get(data, UrlHashKey(h), failing)
    case Failed => ProbeFailed
    case Nil => Miss
    case Value(d) => if d == Placeholder then Miss else Hit(d)
  }

  /** The three SET calls of a miss, in the order they are made. */
  function TripleWrites(lib: Library, url: string, exp: int, now: string, eid: string): seq<(string, string)> {
    [ (ShortLinkKey(eid), url),
      (UrlHashKey(lib.toSha1(url)), eid),
      (ShortlinkDetailKey(eid), lib.marshal(URLDetail(url, now, exp))) ]
  }

  const SetCalls: seq<Call> := [SetUrl, SetHash, SetDetail]

  /** How many of the three SET calls succeed: Shorten stops at the first
      one that fails. */
  function SetsBeforeFailure(faults: set<Call>): (k: nat)
    ensures k <= 3
    ensures forall i :: 0 <= i < k ==> SetCalls[i] !in faults
    ensures k < 3 ==> SetCalls[k] in faults
  {
    if SetUrl in faults then 0
    else if SetHash in faults then 1
    else if SetDetail in faults then 2
    else 3
  }

  /** The store after the given SET calls, applied in order. */
  function SetAll(data: map<string, string>, writes: seq<(string, string)>): map<string, string> {
    if writes == [] then data
    else
      var last := writes[|writes| - 1];
      SetAll(data, writes[..|writes| - 1])[last.0 := last.1]
  }

  /** Keys outside a sequence of writes keep what they held. */
  lemma {:induction false} SetAllElsewhere(data: map<string, string>, writes: seq<(string, string)>, key: string)
    requires forall i :: 0 <= i < |writes| ==> writes[i].0 != key
    ensures key in SetAll(data, writes) <==> key in data
    ensures key in data ==> SetAll(data, writes)[key] == data[key]
  {
    if writes != [] {
      SetAllElsewhere(data, writes[..|writes| - 1], key);
    }
  }

  /** The stores reached by each prefix of three writes. */
  lemma SetAllOfThree(data: map<string, string>, writes: seq<(string, string)>)
    requires |writes| == 3
    ensures SetAll(data, writes[..0]) == data
    ensures SetAll(data, writes[..1]) == data[writes[0].0 := writes[0].1]
    ensures SetAll(data, writes[..2]) == data[writes[0].0 := writes[0].1][writes[1].0 := writes[1].1]
    ensures SetAll(data, writes[..3]) ==
      data[writes[0].0 := writes[0].1][writes[1].0 := writes[1].1][writes[2].0 := writes[2].1]
  {
    assert writes[..1][..0] == writes[..0];
    assert writes[..2][..1] == writes[..1];
    assert writes[..3][..2] == writes[..2];
  }

  /** Two stores agree on every key outside `keys`. */
  ghost predicate UnchangedExcept(before: map<string, string>, after: map<string, string>, keys: set<string>) {
    forall k :: k !in keys ==> (k in before <==> k in after) && (k in before ==> before[k] == after[k])
  }

  /** Whatever prefix of the triple lands, no key other than the three is
      touched (the counter key lives apart from `data`). */
  lemma TripleTouchesOnlyItsKeys(lib: Library, data: map<string, string>, url: string, exp: int, now: string, eid: string, k: nat)
    requires k <= 3
    ensures UnchangedExcept(data, SetAll(data, TripleWrites(lib, url, exp, now, eid)[..k]),
                            {ShortLinkKey(eid), UrlHashKey(lib.toSha1(url)), ShortlinkDetailKey(eid)})
  {
    var writes := TripleWrites(lib, url, exp, now, eid)[..k];
    forall key | key !in {ShortLinkKey(eid), UrlHashKey(lib.toSha1(url)), ShortlinkDetailKey(eid)}
      ensures (key in data <==> key in SetAll(data, writes))
      ensures key in data ==> data[key] == SetAll(data, writes)[key]
    {
      SetAllElsewhere(data, writes, key);
    }
  }

  /** A completed triple holds the URL, the dedup entry and the detail, and
      a later probe for the same URL finds the new code. */
  lemma TripleEffect(lib: Library, data: map<string, string>, url: string, exp: int, now: string, eid: string)
    requires eid != Placeholder
    ensures var after := SetAll(data, TripleWrites(lib, url, exp, now, eid)[..3]);
      && ShortLinkKey(eid) in after && after[ShortLinkKey(eid)] == url
      && ShortlinkDetailKey(eid) in after && after[ShortlinkDetailKey(eid)] == lib.marshal(URLDetail(url, now, exp))
      && DedupLookup(after, lib.toSha1(url), false) == Hit(eid)
  {
    var writes := TripleWrites(lib, url, exp, now, eid);
    SetAllOfThree(data, writes);
    KeyFamiliesDisjoint(eid, lib.toSha1(url));
    KeyFamiliesDisjoint(lib.toSha1(url), eid);
  }

  /** The placeholder is not a base-62 code, so no code Shorten writes is
      ever mistaken for an empty dedup entry. */
  lemma PlaceholderIsNoCode(lib: Library, i: int)
    requires lib.Assumed() && 1 <= i
    ensures lib.encode(i) != Placeholder
  {
    assert IsBase62(lib.encode(i));
    assert !IsBase62Char(Placeholder[0]);
  }

  /** The code of the next id was never issued, so none of its records exist. */
  lemma NextCodeIsFresh(lib: Library, data: map<string, string>, n: int)
    requires lib.Assumed() && Consistent(lib, data, n) && n < MaxInt64
    ensures !Issued(lib, n, lib.encode(n + 1))
    ensures ShortLinkKey(lib.encode(n + 1)) !in data
    ensures ShortlinkDetailKey(lib.encode(n + 1)) !in data
  {
  }

  /** The INCR keeps the invariant. */
  lemma IncrKeepsConsistent(lib: Library, data: map<string, string>, n: int)
    requires Consistent(lib, data, n) && n < MaxInt64
    ensures Consistent(lib, data, n + 1)
  {
  }

  /** SET shortlink:<code>:url of a fresh, issued code keeps the invariant. */
  lemma SetUrlKeepsConsistent(lib: Library, data: map<string, string>, n: int, eid: string, url: string)
    requires Consistent(lib, data, n) && Issued(lib, n, eid) && ShortLinkKey(eid) !in data
    ensures Consistent(lib, data[ShortLinkKey(eid) := url], n)
  {
    var after := data[ShortLinkKey(eid) := url];
    forall e | ShortLinkKey(e) in after ensures Issued(lib, n, e) {
      ShortLinkKeyInjective(e, eid);
    }
    forall e | ShortlinkDetailKey(e) in after ensures ShortlinkDetailKey(e) in data {
      KeyFamiliesDisjoint(eid, e);
    }
    forall h | UrlHashKey(h) in after && after[UrlHashKey(h)] != Placeholder
      ensures Resolves(lib, after, h, after[UrlHashKey(h)])
    {
      KeyFamiliesDisjoint(eid, h);
      assert Resolves(lib, data, h, data[UrlHashKey(h)]);
    }
  }

  /** SET urlhash:<h>:url, once the URL record of the code holds the URL
      with that fingerprint, keeps the invariant. */
  lemma SetHashKeepsConsistent(lib: Library, data: map<string, string>, n: int, url: string, eid: string)
    requires Consistent(lib, data, n)
    requires ShortLinkKey(eid) in data && data[ShortLinkKey(eid)] == url
    ensures Consistent(lib, data[UrlHashKey(lib.toSha1(url)) := eid], n)
  {
    var hk := UrlHashKey(lib.toSha1(url));
    var after := data[hk := eid];
    forall e | ShortLinkKey(e) in after ensures ShortLinkKey(e) in data {
      KeyFamiliesDisjoint(e, lib.toSha1(url));
    }
    forall e | ShortlinkDetailKey(e) in after ensures ShortlinkDetailKey(e) in data {
      KeyFamiliesDisjoint(lib.toSha1(url), e);
    }
    forall h | UrlHashKey(h) in after && after[UrlHashKey(h)] != Placeholder
      ensures Resolves(lib, after, h, after[UrlHashKey(h)])
    {
      UrlHashKeyInjective(h, lib.toSha1(url));
      KeyFamiliesDisjoint(after[UrlHashKey(h)], h);
      KeyFamiliesDisjoint(after[UrlHashKey(h)], lib.toSha1(url));
    }
  }

  /** SET shortlink:<code>:detail of an issued code keeps the invariant. */
  lemma SetDetailKeepsConsistent(lib: Library, data: map<string, string>, n: int, eid: string, detail: string)
    requires Consistent(lib, data, n) && Issued(lib, n, eid)
    ensures Consistent(lib, data[ShortlinkDetailKey(eid) := detail], n)
  {
    var after := data[ShortlinkDetailKey(eid) := detail];
    forall e | ShortLinkKey(e) in after ensures ShortLinkKey(e) in data {
      KeyFamiliesDisjoint(e, eid);
    }
    forall e | ShortlinkDetailKey(e) in after ensures Issued(lib, n, e) {
      ShortlinkDetailKeyInjective(e, eid);
    }
    forall h | UrlHashKey(h) in after && after[UrlHashKey(h)] != Placeholder
      ensures Resolves(lib, after, h, after[UrlHashKey(h)])
    {
      KeyFamiliesDisjoint(h, eid);
      KeyFamiliesDisjoint(data[UrlHashKey(h)], eid);
    }
  }

  /** Every prefix of the triple for the newly issued code keeps the
      invariant: a Shorten aborted between its SET calls leaves a partial
      triple that is still consistent. */
  lemma TripleKeepsConsistent(lib: Library, data: map<string, string>, n: int, url: string, exp: int, now: string, k: nat)
    requires lib.Assumed() && Consistent(lib, data, n) && n < MaxInt64 && k <= 3
    ensures Consistent(lib, SetAll(data, TripleWrites(lib, url, exp, now, lib.encode(n + 1))[..k]), n + 1)
  {
    var eid := lib.encode(n + 1);
    var writes := TripleWrites(lib, url, exp, now, eid);
    NextCodeIsFresh(lib, data, n);
    IncrKeepsConsistent(lib, data, n);
    SetAllOfThree(data, writes);
    assert Issued(lib, n + 1, eid);
    if k >= 1 {
      SetUrlKeepsConsistent(lib, data, n + 1, eid, url);
      var d1 := data[ShortLinkKey(eid) := url];
      if k >= 2 {
        SetHashKeepsConsistent(lib, d1, n + 1, url, eid);
        var d2 := d1[UrlHashKey(lib.toSha1(url)) := eid];
        if k == 3 {
          SetDetailKeepsConsistent(lib, d2, n + 1, eid, lib.marshal(URLDetail(url, now, exp)));
        }
      }
    }
  }

  /** A dedup hit in a consistent store names a code whose URL record holds
      exactly the URL being shortened. */
  lemma HitResolvesToUrl(lib: Library, data: map<string, string>, n: int, url: string)
    requires lib.Assumed() && Consistent(lib, data, n)
    requires DedupLookup(data, lib.toSha1(url), false).Hit?
    ensures var code := DedupLookup(data, lib.toSha1(url), false).code;
      ShortLinkKey(code) in data && data[ShortLinkKey(code)] == url
  {
  }

  /** A code the counter never issued has neither a URL nor a detail record. */
  lemma UnissuedCodeHasNoRecords(lib: Library, data: map<string, string>, n: int, eid: string)
    requires Consistent(lib, data, n) && !Issued(lib, n, eid)
    ensures ShortLinkKey(eid) !in data && ShortlinkDetailKey(eid) !in data
  {
  }

  /** The engine of redis.go over the Redis state it reads and writes. */
  class RedisCli {
    const lib: Library
    /** The string keys of the Redis keyspace. */
    var data: map<string, string>
    /** The integer under `next.url.id` (0 while the key is absent). */
    var nextUrlId: int

    ghost predicate Valid()
      reads this
    {
      lib.Assumed() && Consistent(lib, data, nextUrlId)
    }

    /** A client of a store that already satisfies the invariant (an empty
        one does). */
    constructor (lib: Library, data: map<string, string>, nextUrlId: int)
      requires lib.Assumed() && Consistent(lib, data, nextUrlId)
      ensures Valid()
      ensures this.lib == lib && this.data == data && this.nextUrlId == nextUrlId
    {
      this.lib := lib;
      this.data := data;
      this.nextUrlId := nextUrlId;
    }

    /** Shortens `url` with an expiry of `exp` minutes; `now` is the creation
        time recorded in the detail and `faults` the Redis calls that fail.
        A dedup hit returns the stored code; a miss returns the marshalled
        detail.  An error aborts without undoing earlier writes. */
    method Shorten(url: string, exp: int, now: string, faults: set<Call>) returns (r: Result<string>)
      requires Valid()
      modifies this
      ensures Valid()
      // The dedup probe fails or hits: nothing changes.
      ensures var probe := DedupLookup(old(data), lib.toSha1(url), GetHash in faults);
        !probe.Miss? ==>
          && r == (if probe.Hit? then Ok(probe.code) else Err(StoreError(GetHash)))
          && data == old(data) && nextUrlId == old(nextUrlId)
      // A miss whose INCR fails changes nothing.
      ensures DedupLookup(old(data), lib.toSha1(url), GetHash in faults).Miss?
              && (IncrId in faults || old(nextUrlId) == MaxInt64) ==>
        r == Err(StoreError(IncrId)) && data == old(data) && nextUrlId == old(nextUrlId)
      // A miss whose INCR succeeds raises the counter by exactly one.
      ensures DedupLookup(old(data), lib.toSha1(url), GetHash in faults).Miss?
              && !(IncrId in faults || old(nextUrlId) == MaxInt64) ==>
        nextUrlId == old(nextUrlId) + 1
      // ... and a failing read-back of the counter writes nothing.
      ensures DedupLookup(old(data), lib.toSha1(url), GetHash in faults).Miss?
              && !(IncrId in faults || old(nextUrlId) == MaxInt64) && GetId in faults ==>
        r == Err(StoreError(GetId)) && data == old(data)
      // Otherwise the SET calls up to the first failing one take effect.
      ensures DedupLookup(old(data), lib.toSha1(url), GetHash in faults).Miss?
              && !(IncrId in faults || old(nextUrlId) == MaxInt64) && GetId !in faults ==>
        var writes := TripleWrites(lib, url, exp, now, lib.encode(nextUrlId));
        var k := SetsBeforeFailure(faults);
        && data == SetAll(old(data), writes[..k])
        && r == (if k == 3 then Ok(lib.marshal(URLDetail(url, now, exp))) else Err(StoreError(SetCalls[k])))
      // On success, on either path, the dedup entry names a code that
      // resolves to the URL, and the next probe for it is a hit.
      ensures r.Ok? ==>
        var hk := UrlHashKey(lib.toSha1(url));
        && hk in data && DedupLookup(data, lib.toSha1(url), false) == Hit(data[hk])
        && Unshorten(data[hk], false) == Ok(url)
      // A successful miss issues a code never issued before and returns its detail.
      ensures r.Ok? && nextUrlId != old(nextUrlId) ==>
        var code := lib.encode(nextUrlId);
        && !Issued(lib, old(nextUrlId), code)
        && data[UrlHashKey(lib.toSha1(url))] == code
        && ShortlinkInfo(code, false) == Ok(r.value)
    {
      var h := lib.toSha1(url);
      var probe := DedupLookup(data, h, GetHash in faults);
      match probe {
        case ProbeFailed =>
          return Err(StoreError(GetHash));
        case Hit(code) =>
          HitResolvesToUrl(lib, data, nextUrlId, url);
          return Ok(code);
        case Miss =>
      }

      // INCR next.url.id
      if IncrId in faults || nextUrlId == MaxInt64 {
        return Err(StoreError(IncrId));
      }
      ghost var before, n := data, nextUrlId;
      NextCodeIsFresh(lib, data, n);
      IncrKeepsConsistent(lib, data, n);
      nextUrlId := nextUrlId + 1;

      // GET next.url.id
      if GetId in faults {
        return Err(StoreError(GetId));
      }
      var id := nextUrlId;
      var eid := lib.encode(id);
      ghost var writes := TripleWrites(lib, url, exp, now, eid);
      SetAllOfThree(before, writes);

      if SetUrl in faults {
        return Err(StoreError(SetUrl));
      }
      TripleKeepsConsistent(lib, before, n, url, exp, now, 1);
      data := data[ShortLinkKey(eid) := url];

      if SetHash in faults {
        return Err(StoreError(SetHash));
      }
      TripleKeepsConsistent(lib, before, n, url, exp, now, 2);
      data := data[UrlHashKey(h) := eid];

      var detail := lib.marshal(URLDetail(url, now, exp));
      if SetDetail in faults {
        return Err(StoreError(SetDetail));
      }
      TripleKeepsConsistent(lib, before, n, url, exp, now, 3);
      data := data[ShortlinkDetailKey(eid) := detail];

      PlaceholderIsNoCode(lib, id);
      TripleEffect(lib, before, url, exp, now, eid);
      return Ok(detail);
    }

    /** Resolves a code to its URL by reading `shortlink:<code>:url`; a
        missing key is a 404 carrying Redis's own "nil" error. */
    function Unshorten(eid: string, failing: bool): (r: Result<string>)
      reads this
      ensures r.Ok? <==> !failing && ShortLinkKey(eid) in data
      ensures r.Ok? ==> r.value == data[ShortLinkKey(eid)]
      ensures !failing && ShortLinkKey(eid) !in data ==> r == Err(StatusError(404, RedisNil))
      ensures failing ==> r == Err(StoreError(GetUrl))
    {
      match Get(data, ShortLinkKey(eid), failing)
      case Nil => Err(StatusError(404, RedisNil))
      case Failed => Err(StoreError(GetUrl))
      case Value(url) => Ok(url)
    }

    /** Returns the stored detail of a code by reading
        `shortlink:<code>:detail`; a missing key is a 404 "Unknown short URL". */
    function ShortlinkInfo(eid: string, failing: bool): (r: Result<string>)
      reads this
      ensures r.Ok? <==> !failing && ShortlinkDetailKey(eid) in data
      ensures r.Ok? ==> r.value == data[ShortlinkDetailKey(eid)]
      ensures !failing && ShortlinkDetailKey(eid) !in data ==> r == Err(StatusError(404, UnknownShortUrl))
      ensures failing ==> r == Err(StoreError(GetDetail))
    {
      match Get(data, ShortlinkDetailKey(eid), failing)
      case Nil => Err(StatusError(404, UnknownShortUrl))
      case Failed => Err(StoreError(GetDetail))
      case Value(d) => Ok(d)
    }
  }
}
