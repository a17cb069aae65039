/** `GET /api/active-now`: the site-wide realtime active-user count, cached
    per requested interval. The request instant, the environment variable and
    the realtime report come in as parameters; a number that `Number()`
    cannot read (NaN) is `None`. */
module ActiveNowRoute {
  import opened Wrappers
  import opened JsText
  import opened JsNumber

  /** The smallest interval a request may ask for. */
  const MinInterval: int := 10000

  /** `Number(process.env.ACTIVE_USERS_CACHE_MS) || 60000`: an unset, empty,
      zero or unreadable setting falls back to one minute. */
  function DefaultDuration(setting: Option<string>): (d: int)
    ensures d != 0
    ensures setting.None? ==> d == 60000
    ensures setting.Some? && ParseNumber(setting.value).Some? && ParseNumber(setting.value).value != 0 ==>
              d == ParseNumber(setting.value).value
  {
    match setting
    case None => 60000
    case Some(s) =>
      match ParseNumber(s)
      case None => 60000
      case Some(n) => if n == 0 then 60000 else n
  }

  /** The interval a request uses: the `intervalms` parameter when it is
      non-empty, else the default; NaN or anything below the minimum becomes
      the minimum. */
  function Interval(param: Option<string>, default: int): (ms: int)
    ensures ms >= MinInterval
    ensures Truthy(param) && ParseNumber(param.value).Some? && ParseNumber(param.value).value >= MinInterval ==>
              ms == ParseNumber(param.value).value
    ensures !Truthy(param) ==> ms == if default < MinInterval then MinInterval else default
    ensures Truthy(param) && ParseNumber(param.value).None? ==> ms == MinInterval
    ensures Truthy(param) && ParseNumber(param.value).Some? && ParseNumber(param.value).value < MinInterval ==>
              ms == MinInterval
  {
    var requested := if Truthy(param) then ParseNumber(param.value) else Some(default);
    match requested
    case None => MinInterval
    case Some(n) => if n < MinInterval then MinInterval else n
  }

  /** The first metric value of the first total and of the first row of a
      realtime report (`None` when absent). */
  datatype RealtimeReport = RealtimeReport(total: Option<string>, row: Option<string>)

  /** The count read from a report: the total if present, else the row, else 0. */
  function ActiveUsers(report: RealtimeReport): (v: Option<int>)
    ensures report.total.Some? ==> v == ParseNumber(report.total.value)
    ensures report.total.None? && report.row.Some? ==> v == ParseNumber(report.row.value)
    ensures report.total.None? && report.row.None? ==> v == Some(0)
  {
    if report.total.Some? then ParseNumber(report.total.value)
    else if report.row.Some? then ParseNumber(report.row.value)
    else Some(0)
  }

  /** One cache entry. */
  datatype Entry = Entry(value: Option<int>, timestamp: int)

  /** The route's answers. */
  datatype ActiveResponse =
    | Active(activeUsers: Option<int>, cached: bool)
    | ServerError(status: int, message: string)

  /** The entry for an interval is served when it is younger than the interval. */
  predicate Hit(cache: map<int, Entry>, interval: int, now: int) {
    interval in cache && now - cache[interval].timestamp < interval
  }

  /** The answer and the new cache for one request; `report` is what the
      realtime call gives, or the message it fails with. */
  function Respond(cache: map<int, Entry>, default: int, param: Option<string>, now: int,
                   report: Result<RealtimeReport>): (r: (map<int, Entry>, ActiveResponse))
    ensures r.1.Active? && r.1.cached <==> Hit(cache, Interval(param, default), now)
    ensures r.1.ServerError? <==> !Hit(cache, Interval(param, default), now) && report.Failure?
    ensures Hit(cache, Interval(param, default), now) || report.Failure? ==> r.0 == cache
    ensures !Hit(cache, Interval(param, default), now) && report.Success? ==>
              r.0 == cache[Interval(param, default) := Entry(ActiveUsers(report.value), now)]
              && r.1 == Active(ActiveUsers(report.value), false)
  {
    var interval := Interval(param, default);
    if Hit(cache, interval, now) then (cache, Active(cache[interval].value, true))
    else
      match report
      case Failure(message) => (cache, ServerError(500, message))
      case Success(rep) =>
        var v := ActiveUsers(rep);
        (cache[interval := Entry(v, now)], Active(v, false))
  }

  /** The module cache, one entry per interval, and the default interval
      read once from the environment. */
  class ActiveNowCache {
    var cacheMap: map<int, Entry>
    const defaultDuration: int

    constructor(setting: Option<string>)
      ensures cacheMap == map[] && defaultDuration == DefaultDuration(setting)
    {
      cacheMap := map[];
      defaultDuration := DefaultDuration(setting);
    }

    /** `GET`. */
    method HandleGet(param: Option<string>, now: int, report: Result<RealtimeReport>) returns (resp: ActiveResponse)
      modifies this
      ensures (cacheMap, resp) == Respond(old(cacheMap), defaultDuration, param, now, report)
    {
      var intervalms := if Truthy(param) then ParseNumber(param.value) else Some(defaultDuration);
      var interval := if intervalms.None? || intervalms.value < MinInterval then MinInterval else intervalms.value;
      if interval in cacheMap && now - cacheMap[interval].timestamp < interval {
        return Active(cacheMap[interval].value, true);
      }
      if report.Failure? {
        return ServerError(500, report.error);
      }
      var value: Option<int> := Some(0);
      if report.value.total.Some? {
        value := ParseNumber(report.value.total.value);
      } else if report.value.row.Some? {
        value := ParseNumber(report.value.row.value);
      }
      cacheMap := cacheMap[interval := Entry(value, now)];
      resp := Active(value, false);
    }
  }

  /** A request only ever replaces the entry of its own interval, and only
      when it missed and the report arrived. */
  lemma OnlyOwnIntervalChanges(cache: map<int, Entry>, default: int, param: Option<string>, now: int,
                               report: Result<RealtimeReport>, other: int)
    requires other != Interval(param, default)
    ensures var cache' := Respond(cache, default, param, now, report).0;
            (other in cache' <==> other in cache) && (other in cache ==> cache'[other] == cache[other])
  {
  }

  /** After a fetched answer, a repeat of the same request within the
      interval is answered from the cache with the same count. */
  lemma RepeatWithinInterval(cache: map<int, Entry>, default: int, param: Option<string>, now: int,
                             report: Result<RealtimeReport>, now': int, report': Result<RealtimeReport>)
    requires !Hit(cache, Interval(param, default), now) && report.Success?
    requires now <= now' < now + Interval(param, default)
    ensures var (cache', resp) := Respond(cache, default, param, now, report);
            Respond(cache', default, param, now', report') == (cache', Active(resp.activeUsers, true))
  {
  }

  /** A failed report answers 500 with its message and keeps the cache. */
  lemma FailureKeepsCache(cache: map<int, Entry>, default: int, param: Option<string>, now: int, message: string)
    requires !Hit(cache, Interval(param, default), now)
    ensures Respond(cache, default, param, now, Failure(message)) == (cache, ServerError(500, message))
  {
  }
}
