/** `GET /api/awards`: the aggregated awards, kept in a module-level cache for
    seven days. The request instant and the aggregation's inputs come in as
    parameters. */
module AwardsRoute {
  import opened Wrappers
  import opened AwardData
  import opened GetAwards

  /** Seven days, in milliseconds. */
  const CacheDuration: int := 7 * 24 * 60 * 60 * 1000

  /** The `Cache-Control` header of a freshly aggregated answer. */
  const FreshCacheControl: string := "s-maxage=604800, stale-while-revalidate"

  /** The route's answers: the awards array (with the header a fresh
      aggregation carries) or a 500 with an error message. */
  datatype AwardsResponse =
    | Json(awards: seq<Award>, cacheControl: Option<string>)
    | ServerError(status: int, message: string)

  /** `cachedAwards` and `cacheTimestamp`. */
  datatype CacheState = CacheState(awards: Option<seq<Award>>, timestamp: int)

  /** The cached array is served when there is one (an empty array counts),
      the request does not say `cache=false`, and it is less than seven days old. */
  predicate ServesCached(st: CacheState, cacheParam: Option<string>, now: int) {
    st.awards.Some? && cacheParam != Some("false") && now - st.timestamp < CacheDuration
  }

  /** The answer and the new cache for one request. */
  function Respond(st: CacheState, cacheParam: Option<string>, now: int, src: Sources): (r: (AwardsResponse, CacheState))
    ensures r.0.Json? && r.0.cacheControl.None? <==> ServesCached(st, cacheParam, now)
    ensures r.0.ServerError? <==> !ServesCached(st, cacheParam, now) && AwardsOf(src).Failure?
    ensures r.0.ServerError? ==> r.0 == ServerError(500, "Failed to fetch awards")
    ensures r.1 == st || (AwardsOf(src).Success? && r.1 == CacheState(Some(AwardsOf(src).value), now))
  {
    if ServesCached(st, cacheParam, now) then (Json(st.awards.value, None), st)
    else
      match AwardsOf(src)
      case Success(awards) => (Json(awards, Some(FreshCacheControl)), CacheState(Some(awards), now))
      case Failure(_) => (ServerError(500, "Failed to fetch awards"), st)
  }

  /** The module cache and its handler. */
  class AwardsCache {
    var cachedAwards: Option<seq<Award>>
    var cacheTimestamp: int

    function State(): CacheState
      reads this
    {
      CacheState(cachedAwards, cacheTimestamp)
    }

    constructor()
      ensures State() == CacheState(None, 0)
    {
      cachedAwards := None;
      cacheTimestamp := 0;
    }

    /** `GET`: serve the cache, or aggregate afresh and remember the result
      with the request instant; a failed aggregation answers 500 and leaves
      the cache as it was. */
    method HandleGet(cacheParam: Option<string>, now: int, src: Sources) returns (resp: AwardsResponse)
      modifies this
      ensures (resp, State()) == Respond(old(State()), cacheParam, now, src)
    {
      var forceRefresh := cacheParam == Some("false");
      if cachedAwards.Some? && !forceRefresh && now - cacheTimestamp < CacheDuration {
        return Json(cachedAwards.value, None);
      }
      var awards := GetAwardsRun(src);
      if awards.Failure? {
        return ServerError(500, "Failed to fetch awards");
      }
      cachedAwards := Some(awards.value);
      cacheTimestamp := now;
      resp := Json(awards.value, Some(FreshCacheControl));
    }
  }

  /** A request served from the cache changes nothing and answers the cached
      array without a header; any other request answers what the aggregation
      gives. */
  lemma RespondCases(st: CacheState, cacheParam: Option<string>, now: int, src: Sources)
    ensures ServesCached(st, cacheParam, now) ==>
              Respond(st, cacheParam, now, src) == (Json(st.awards.value, None), st)
    ensures !ServesCached(st, cacheParam, now) && AwardsOf(src).Success? ==>
              Respond(st, cacheParam, now, src).0 == Json(AwardsOf(src).value, Some(FreshCacheControl))
    ensures AwardsOf(src).Failure? ==> Respond(st, cacheParam, now, src).1 == st
  {
  }

  /** `cache=false` always aggregates afresh. */
  lemma ForceRefreshAggregates(st: CacheState, now: int, src: Sources)
    ensures Respond(st, Some("false"), now, src).0 ==
            match AwardsOf(src)
            case Success(awards) => Json(awards, Some(FreshCacheControl))
            case Failure(_) => ServerError(500, "Failed to fetch awards")
  {
  }

  /** After a successful aggregation at `t`, every request within the next
      seven days that does not say `cache=false` gets the same array back
      from the cache, whatever the sources then hold. */
  lemma CachedForSevenDays(st: CacheState, cacheParam: Option<string>, t: int, src: Sources,
                           cacheParam': Option<string>, t': int, src': Sources)
    requires !ServesCached(st, cacheParam, t) && AwardsOf(src).Success?
    requires t <= t' < t + CacheDuration && cacheParam' != Some("false")
    ensures var st' := Respond(st, cacheParam, t, src).1;
            Respond(st', cacheParam', t', src') == (Json(AwardsOf(src).value, None), st')
  {
  }
}
