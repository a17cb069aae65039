/** `GET /api/all/active`: active-user counts for every configured brand
    (now, today, the last 30 days and the last 365 days), each metric of each
    brand cached under its own key `<brand>:<metric>` with its own lifetime.
    The GA4 reports, the clock and the local time of day come in as
    parameters; a number that `Number()` cannot read (NaN, serialised as
    `null`) is `None`. */
module AllActiveRoute {
  import opened Wrappers
  import opened JsNumber
  import opened JsObject
  import opened BrandConfig

  const TtlNow: int := 60000
  const TtlToday: int := 300000
  const DayMs: int := 86400000
  const NoonMs: int := 43200000

  /** `getNextMiddayTTL`: milliseconds from the local time of day `msOfDay`
      to the next 12:00 (to tomorrow's when it is already noon or later). */
  function NextMiddayTtl(msOfDay: int): (ttl: int)
    requires 0 <= msOfDay < DayMs
    ensures 0 < ttl <= DayMs
    ensures (msOfDay + ttl) % DayMs == NoonMs
    ensures msOfDay + ttl == NoonMs <==> msOfDay < NoonMs
  {
    if msOfDay >= NoonMs then NoonMs + DayMs - msOfDay else NoonMs - msOfDay
  }

  /** The four cached metrics. */
  datatype Metric = Now | Today | Days30 | Days365

  function MetricName(m: Metric): (n: string)
    ensures ':' !in n && |n| >= 1
  {
    match m
    case Now => "now"
    case Today => "today"
    case Days30 => "30"
    case Days365 => "365"
  }

  /** The timestamp key of one metric of one brand. */
  function StatKey(brand: string, m: Metric): string {
    brand + ":" + MetricName(m)
  }

  /** When `b1:n1` and `b2:n2` spell the same string with `b1` the shorter
      prefix, the colon after `b2` falls inside `n1`. */
  lemma ColonInLongerName(b1: string, n1: string, b2: string, n2: string)
    requires b1 + ":" + n1 == b2 + ":" + n2 && |b1| < |b2|
    ensures ':' in n1
  {
    var x := b2 + ":" + n2;
    assert x[|b2|] == ':';
    assert n1[|b2| - |b1| - 1] == x[|b2|];
  }

  /** Distinct brand/metric pairs never share a timestamp key, because no
      metric name contains a colon. */
  lemma StatKeyInjective(b1: string, m1: Metric, b2: string, m2: Metric)
    requires StatKey(b1, m1) == StatKey(b2, m2)
    ensures b1 == b2 && m1 == m2
  {
    var x := StatKey(b1, m1);
    var n1, n2 := MetricName(m1), MetricName(m2);
    if |b1| < |b2| {
      ColonInLongerName(b1, n1, b2, n2);
      assert false;
    } else if |b2| < |b1| {
      ColonInLongerName(b2, n2, b1, n1);
      assert false;
    } else {
      assert b1 == x[..|b1|] == b2;
      assert n1 == x[|b1| + 1..] == n2;
      assert m1 == m2 by {
        match m1 case Now => case Today => case Days30 => case Days365 =>
      }
    }
  }

  /** One brand's counts; `None` is a NaN count. */
  datatype BrandStats = BrandStats(now: Option<int>, today: Option<int>, d30: Option<int>, d365: Option<int>)

  const ZeroStats: BrandStats := BrandStats(Some(0), Some(0), Some(0), Some(0))

  function StatOf(s: BrandStats, m: Metric): Option<int> {
    match m
    case Now => s.now
    case Today => s.today
    case Days30 => s.d30
    case Days365 => s.d365
  }

  /** `s` with metric `m` set to `v`. */
  function WithStat(s: BrandStats, m: Metric, v: Option<int>): (r: BrandStats)
    ensures StatOf(r, m) == v
    ensures forall m' :: m' != m ==> StatOf(r, m') == StatOf(s, m')
  {
    match m
    case Now => s.(now := v)
    case Today => s.(today := v)
    case Days30 => s.(d30 := v)
    case Days365 => s.(d365 := v)
  }

  /** `cache.timestamps[key]`, absent as `None`. */
  function TimestampOf(ts: map<string, int>, key: string): Option<int> {
    if key in ts then Some(ts[key]) else None
  }

  /** `isFresh`: less than `ttl` has passed since the key's timestamp (an
      absent timestamp counts as 0). */
  predicate IsFresh(ts: map<string, int>, key: string, ttl: int, now: int) {
    now - TimestampOf(ts, key).GetOr(0) < ttl
  }

  /** The dimension filter sent with a report request. */
  datatype FilterExpression = FilterExpression(fieldName: string, matchType: MatchType, value: string, caseSensitive: bool)

  /** `buildGA4Filter`: no filter for a brand without one; otherwise the same
      field, match type and value, with `caseSensitive` defaulting to false. */
  function BuildGA4Filter(f: Option<GA4Filter>): (r: Option<FilterExpression>)
    ensures r.None? <==> f.None?
    ensures r.Some? ==> r.value.fieldName == f.value.fieldName
                        && r.value.matchType == f.value.stringFilter.matchType
                        && r.value.value == f.value.stringFilter.value
    ensures r.Some? ==> (r.value.caseSensitive <==> f.value.stringFilter.caseSensitive == Some(true))
  {
    match f
    case None => None
    case Some(g) =>
      Some(FilterExpression(g.fieldName, g.stringFilter.matchType, g.stringFilter.value,
                            g.stringFilter.caseSensitive.GetOr(false)))
  }

  /** The brand configuration and the brand-to-GA4-property table. */
  datatype RouteConfig = RouteConfig(props: seq<(string, BrandProperty)>, propertyIds: seq<(string, string)>)

  /** A `runReport` request for the history metrics. */
  datatype ReportRequest = ReportRequest(property: string, startDate: string, endDate: string, filter: Option<FilterExpression>)

  /** The two GA4 calls: the first metric value of the first row of a
      report, and of a realtime report for a property (`None` when absent). */
  datatype Analytics = Analytics(report: ReportRequest -> Option<string>, realtime: string -> Option<string>)

  /** The request instant and its local time of day. */
  datatype Clock = Clock(now: int, msOfDay: int)

  predicate ValidClock(c: Clock) {
    0 <= c.msOfDay < DayMs
  }

  /** `properties/${GA4_PROPS[brand]}`. */
  function PropertyName(brand: string, cfg: RouteConfig): (r: string)
    ensures |r| >= 11 && r[..11] == "properties/"
    ensures Get(cfg.propertyIds, brand).Some? ==> r[11..] == Get(cfg.propertyIds, brand).value
    ensures Get(cfg.propertyIds, brand).None? ==> r[11..] == "undefined"
  {
    "properties/" + Get(cfg.propertyIds, brand).GetOr("undefined")
  }

  /** The brand's configured GA4 filter, if any. */
  function FilterOf(brand: string, cfg: RouteConfig): (f: Option<GA4Filter>)
    ensures f.Some? ==> Get(cfg.props, brand).Some? && Get(cfg.props, brand).value.ga4Filter == f
  {
    match Get(cfg.props, brand)
    case None => None
    case Some(p) => p.ga4Filter
  }

  /** The request `fetchGA4` sends: today for today, and the 30 or 365 days
      up to yesterday for the history metrics, filtered by the brand's filter. */
  function RequestFor(brand: string, m: Metric, cfg: RouteConfig): (q: ReportRequest)
    requires m != Now
    ensures q.property == PropertyName(brand, cfg)
    ensures q.filter == BuildGA4Filter(FilterOf(brand, cfg))
    ensures q.endDate == (if m == Today then "today" else "yesterday")
  {
    var (start, end) := match m
      case Today => ("today", "today")
      case Days30 => ("30daysAgo", "yesterday")
      case Days365 => ("365daysAgo", "yesterday");
    ReportRequest(PropertyName(brand, cfg), start, end, BuildGA4Filter(FilterOf(brand, cfg)))
  }

  /** `fetchGA4`: `Number(value ?? 0)`. */
  function ReportValue(brand: string, m: Metric, cfg: RouteConfig, ga: Analytics): (v: Option<int>)
    requires m != Now
    ensures ga.report(RequestFor(brand, m, cfg)).None? ==> v == Some(0)
    ensures ga.report(RequestFor(brand, m, cfg)).Some? ==> v == ParseNumber(ga.report(RequestFor(brand, m, cfg)).value)
  {
    match ga.report(RequestFor(brand, m, cfg))
    case None => Some(0)
    case Some(s) => ParseNumber(s)
  }

  /** `Math.max(1, Math.round(today / 48))`, NaN staying NaN. */
  function Estimate(today: Option<int>): (r: Option<int>)
    ensures r.None? <==> today.None?
    ensures r.Some? ==> r.value >= 1
    ensures r.Some? && r.value > 1 ==> 2 * 48 * r.value - 48 <= 2 * today.value < 2 * 48 * r.value + 48
    ensures today.Some? ==> (r.value == 1 <==> 2 * today.value < 3 * 48)
  {
    match today
    case None => None
    case Some(t) => var q := RoundDiv(t, 48); Some(if q < 1 then 1 else q)
  }

  /** `fetchRealtime`: a brand with a GA4 filter gets the estimate from its
      today count; any other brand gets its realtime value, or the estimate
      when the report has none. */
  function Realtime(brand: string, today: Option<int>, cfg: RouteConfig, ga: Analytics): (v: Option<int>)
    ensures FilterOf(brand, cfg).Some? ==> v == Estimate(today)
    ensures FilterOf(brand, cfg).None? && ga.realtime(PropertyName(brand, cfg)).None? ==> v == Estimate(today)
    ensures FilterOf(brand, cfg).None? && ga.realtime(PropertyName(brand, cfg)).Some? ==>
              v == ParseNumber(ga.realtime(PropertyName(brand, cfg)).value)
  {
    if FilterOf(brand, cfg).Some? then Estimate(today)
    else
      match ga.realtime(PropertyName(brand, cfg))
      case None => Estimate(today)
      case Some(s) => ParseNumber(s)
  }

  /** The lifetime of each metric. */
  function Ttl(m: Metric, clock: Clock): (ttl: int)
    requires ValidClock(clock)
    ensures ttl > 0
    ensures m == Now ==> ttl == 60000
    ensures m == Today ==> ttl == 300000
    ensures m == Days30 || m == Days365 ==> ttl == NextMiddayTtl(clock.msOfDay)
  {
    match m
    case Now => TtlNow
    case Today => TtlToday
    case Days30 => NextMiddayTtl(clock.msOfDay)
    case Days365 => NextMiddayTtl(clock.msOfDay)
  }

  /** The value a refresh of metric `m` stores, given the brand's stats at that point. */
  function Fetched(m: Metric, brand: string, s: BrandStats, cfg: RouteConfig, ga: Analytics): Option<int> {
    if m == Now then Realtime(brand, s.today, cfg, ga) else ReportValue(brand, m, cfg, ga)
  }

  /** The module-level `cache`. */
  datatype CacheState = CacheState(data: seq<(string, BrandStats)>, timestamps: map<string, int>)

  /** One metric step: a stale metric is fetched and stamped with `now`; a
      fresh one is served from the cache. */
  function RefreshMetric(st: CacheState, brand: string, m: Metric, cfg: RouteConfig, ga: Analytics, clock: Clock): (r: CacheState)
    requires ValidClock(clock) && Get(st.data, brand).Some?
    ensures Keys(r.data) == Keys(st.data) && Get(r.data, brand).Some?
  {
    var key := StatKey(brand, m);
    if IsFresh(st.timestamps, key, Ttl(m, clock), clock.now) then st
    else
      var s := Get(st.data, brand).value;
      PutGet(st.data, brand, WithStat(s, m, Fetched(m, brand, s, cfg, ga)), brand);
      CacheState(Put(st.data, brand, WithStat(s, m, Fetched(m, brand, s, cfg, ga))),
                 st.timestamps[key := clock.now])
  }

  /** `cache.data[brand] ??= { now: 0, today: 0, "30": 0, "365": 0 }`. */
  function Initialised(st: CacheState, brand: string): (r: CacheState)
    ensures Get(r.data, brand).Some? && r.timestamps == st.timestamps
    ensures Keys(r.data) == if brand in Keys(st.data) then Keys(st.data) else Keys(st.data) + [brand]
  {
    if Get(st.data, brand).Some? then st
    else
      PutGet(st.data, brand, ZeroStats, brand);
      st.(data := Put(st.data, brand, ZeroStats))
  }

  /** One brand's work: initialise, then today, 30 days, 365 days and now, in
      that order (the realtime estimate reads the today count just refreshed). */
  function RefreshBrand(st: CacheState, brand: string, cfg: RouteConfig, ga: Analytics, clock: Clock): (r: CacheState)
    requires ValidClock(clock)
    ensures Get(r.data, brand).Some?
    ensures Keys(r.data) == if brand in Keys(st.data) then Keys(st.data) else Keys(st.data) + [brand]
  {
    var s0 := Initialised(st, brand);
    var s1 := RefreshMetric(s0, brand, Today, cfg, ga, clock);
    var s2 := RefreshMetric(s1, brand, Days30, cfg, ga, clock);
    var s3 := RefreshMetric(s2, brand, Days365, cfg, ga, clock);
    RefreshMetric(s3, brand, Now, cfg, ga, clock)
  }

  /** Every brand's work, in order. */
  function RefreshAll(st: CacheState, brands: seq<string>, cfg: RouteConfig, ga: Analytics, clock: Clock): (r: CacheState)
    requires ValidClock(clock)
    ensures forall k :: k in Keys(st.data) ==> k in Keys(r.data)
    ensures forall b :: b in brands ==> b in Keys(r.data)
    ensures forall k :: k in Keys(r.data) ==> k in Keys(st.data) || k in brands
  {
    if brands == [] then st
    else
      var init, last := brands[..|brands| - 1], brands[|brands| - 1];
      assert brands == init + [last];
      var prev := RefreshAll(st, init, cfg, ga, clock);
      RefreshBrand(prev, last, cfg, ga, clock)
  }

  /** `cache=false` empties both the data and the timestamps first. */
  function Cleared(st: CacheState, cacheParam: Option<string>): CacheState {
    if cacheParam == Some("false") then CacheState([], map[]) else st
  }

  /** The cache after one request. */
  function Handled(st: CacheState, cacheParam: Option<string>, cfg: RouteConfig, ga: Analytics, clock: Clock): (r: CacheState)
    requires ValidClock(clock)
    ensures forall b :: b in Keys(cfg.props) ==> b in Keys(r.data)
    ensures cacheParam != Some("false") ==> forall k :: k in Keys(st.data) ==> k in Keys(r.data)
    ensures cacheParam == Some("false") ==> forall k :: k in Keys(r.data) ==> k in Keys(cfg.props)
  {
    RefreshAll(Cleared(st, cacheParam), Keys(cfg.props), cfg, ga, clock)
  }

  /** The module cache and the handler that fills it. */
  class AllActiveCache {
    var data: seq<(string, BrandStats)>
    var timestamps: map<string, int>

    function State(): CacheState
      reads this
    {
      CacheState(data, timestamps)
    }

    constructor()
      ensures State() == CacheState([], map[])
    {
      data := [];
      timestamps := map[];
    }

    /** One metric step of one brand. */
    method RefreshMetricStep(brand: string, m: Metric, cfg: RouteConfig, ga: Analytics, clock: Clock)
      requires ValidClock(clock) && Get(data, brand).Some?
      modifies this
      ensures State() == RefreshMetric(old(State()), brand, m, cfg, ga, clock)
    {
      var key := StatKey(brand, m);
      if !IsFresh(timestamps, key, Ttl(m, clock), clock.now) {
        var s := Get(data, brand).value;
        data := Put(data, brand, WithStat(s, m, Fetched(m, brand, s, cfg, ga)));
        timestamps := timestamps[key := clock.now];
      }
    }

    /** The per-brand callback. */
    method RefreshBrandStep(brand: string, cfg: RouteConfig, ga: Analytics, clock: Clock)
      requires ValidClock(clock)
      modifies this
      ensures State() == RefreshBrand(old(State()), brand, cfg, ga, clock)
    {
      if Get(data, brand).None? {
        PutGet(data, brand, ZeroStats, brand);
        data := Put(data, brand, ZeroStats);
      }
      ghost var s0 := State();
      assert s0 == Initialised(old(State()), brand);
      RefreshMetricStep(brand, Today, cfg, ga, clock);
      ghost var s1 := State();
      RefreshMetricStep(brand, Days30, cfg, ga, clock);
      ghost var s2 := State();
      RefreshMetricStep(brand, Days365, cfg, ga, clock);
      ghost var s3 := State();
      RefreshMetricStep(brand, Now, cfg, ga, clock);
      assert State() == RefreshMetric(s3, brand, Now, cfg, ga, clock);
    }

    /** The `Promise.all` over the brands' callbacks, run one after the other:
        the callbacks of all brands but the last, then the last one's. */
    method RefreshBrands(brands: seq<string>, cfg: RouteConfig, ga: Analytics, clock: Clock)
      requires ValidClock(clock)
      modifies this
      ensures State() == RefreshAll(old(State()), brands, cfg, ga, clock)
      decreases |brands|
    {
      if brands != [] {
        RefreshBrands(brands[..|brands| - 1], cfg, ga, clock);
        RefreshBrandStep(brands[|brands| - 1], cfg, ga, clock);
      }
    }

    /** `GET`: clear on `cache=false`, refresh every configured brand and
      answer with the whole `data` object. */
    method HandleGet(cacheParam: Option<string>, cfg: RouteConfig, ga: Analytics, clock: Clock)
      returns (body: seq<(string, BrandStats)>)
      requires ValidClock(clock)
      modifies this
      ensures State() == Handled(old(State()), cacheParam, cfg, ga, clock)
      ensures body == data
    {
      if cacheParam == Some("false") {
        data := [];
        timestamps := map[];
      }
      RefreshBrands(Keys(cfg.props), cfg, ga, clock);
      body := data;
    }
  }

  /** What two cache states hold for one brand: its stats and its four timestamps. */
  predicate SameBrand(st1: CacheState, st2: CacheState, b: string) {
    Get(st1.data, b) == Get(st2.data, b)
    && forall m :: TimestampOf(st1.timestamps, StatKey(b, m)) == TimestampOf(st2.timestamps, StatKey(b, m))
  }

  /** A metric step of one brand leaves every other brand alone. */
  lemma RefreshMetricOther(st: CacheState, brand: string, m: Metric, cfg: RouteConfig, ga: Analytics, clock: Clock, b: string)
    requires ValidClock(clock) && Get(st.data, brand).Some? && b != brand
    ensures SameBrand(st, RefreshMetric(st, brand, m, cfg, ga, clock), b)
  {
    var r := RefreshMetric(st, brand, m, cfg, ga, clock);
    var s := Get(st.data, brand).value;
    PutGet(st.data, brand, WithStat(s, m, Fetched(m, brand, s, cfg, ga)), b);
    forall m' ensures TimestampOf(st.timestamps, StatKey(b, m')) == TimestampOf(r.timestamps, StatKey(b, m')) {
      if StatKey(b, m') == StatKey(brand, m) {
        StatKeyInjective(b, m', brand, m);
      }
    }
  }

  /** A metric step of a brand depends only on what the cache holds for that brand. */
  lemma RefreshMetricLocal(st1: CacheState, st2: CacheState, brand: string, m: Metric, cfg: RouteConfig, ga: Analytics, clock: Clock)
    requires ValidClock(clock) && Get(st1.data, brand).Some? && SameBrand(st1, st2, brand)
    ensures SameBrand(RefreshMetric(st1, brand, m, cfg, ga, clock), RefreshMetric(st2, brand, m, cfg, ga, clock), brand)
  {
    var key := StatKey(brand, m);
    assert TimestampOf(st1.timestamps, key) == TimestampOf(st2.timestamps, key);
    if !IsFresh(st1.timestamps, key, Ttl(m, clock), clock.now) {
      var s := Get(st1.data, brand).value;
      var v := WithStat(s, m, Fetched(m, brand, s, cfg, ga));
      PutSameGet(st1.data, st2.data, brand, v);
      StampLocal(st1.timestamps, st2.timestamps, brand, m, clock.now);
    }
  }

  /** Stamping one metric of a brand keeps two timestamp tables that agree
      on the brand in agreement. */
  lemma PutSameGet(d1: seq<(string, BrandStats)>, d2: seq<(string, BrandStats)>, brand: string, v: BrandStats)
    ensures Get(Put(d1, brand, v), brand) == Get(Put(d2, brand, v), brand)
  {
    PutGet(d1, brand, v, brand);
    PutGet(d2, brand, v, brand);
  }

  lemma StampLocal(t1: map<string, int>, t2: map<string, int>, brand: string, m: Metric, now: int)
    requires forall m' :: TimestampOf(t1, StatKey(brand, m')) == TimestampOf(t2, StatKey(brand, m'))
    ensures forall m' :: TimestampOf(t1[StatKey(brand, m) := now], StatKey(brand, m'))
                        == TimestampOf(t2[StatKey(brand, m) := now], StatKey(brand, m'))
  {
    forall m' ensures TimestampOf(t1[StatKey(brand, m) := now], StatKey(brand, m'))
                      == TimestampOf(t2[StatKey(brand, m) := now], StatKey(brand, m')) {
      if StatKey(brand, m') == StatKey(brand, m) {
        StatKeyInjective(brand, m', brand, m);
      }
    }
  }


  /** Initialising a brand leaves every other brand alone. */
  lemma InitialisedOther(st: CacheState, brand: string, b: string)
    requires b != brand
    ensures SameBrand(st, Initialised(st, brand), b)
  {
    PutGet(st.data, brand, ZeroStats, b);
  }

  /** Initialising a brand depends only on what the cache holds for it. */
  lemma InitialisedLocal(st1: CacheState, st2: CacheState, brand: string)
    requires SameBrand(st1, st2, brand)
    ensures SameBrand(Initialised(st1, brand), Initialised(st2, brand), brand)
  {
    PutGet(st1.data, brand, ZeroStats, brand);
    PutGet(st2.data, brand, ZeroStats, brand);
  }

  /** A brand's work never touches another brand's stats or timestamps. */
  lemma RefreshBrandOther(st: CacheState, brand: string, cfg: RouteConfig, ga: Analytics, clock: Clock, b: string)
    requires ValidClock(clock) && b != brand
    ensures SameBrand(st, RefreshBrand(st, brand, cfg, ga, clock), b)
  {
    var s0 := Initialised(st, brand);
    var s1 := RefreshMetric(s0, brand, Today, cfg, ga, clock);
    var s2 := RefreshMetric(s1, brand, Days30, cfg, ga, clock);
    var s3 := RefreshMetric(s2, brand, Days365, cfg, ga, clock);
    InitialisedOther(st, brand, b);
    RefreshMetricOther(s0, brand, Today, cfg, ga, clock, b);
    RefreshMetricOther(s1, brand, Days30, cfg, ga, clock, b);
    RefreshMetricOther(s2, brand, Days365, cfg, ga, clock, b);
    RefreshMetricOther(s3, brand, Now, cfg, ga, clock, b);
  }

  /** A brand's work depends only on what the cache holds for that brand. */
  lemma RefreshBrandLocal(st1: CacheState, st2: CacheState, brand: string, cfg: RouteConfig, ga: Analytics, clock: Clock)
    requires ValidClock(clock) && SameBrand(st1, st2, brand)
    ensures SameBrand(RefreshBrand(st1, brand, cfg, ga, clock), RefreshBrand(st2, brand, cfg, ga, clock), brand)
  {
    var a0, b0 := Initialised(st1, brand), Initialised(st2, brand);
    InitialisedLocal(st1, st2, brand);
    var a1, b1 := RefreshMetric(a0, brand, Today, cfg, ga, clock), RefreshMetric(b0, brand, Today, cfg, ga, clock);
    RefreshMetricLocal(a0, b0, brand, Today, cfg, ga, clock);
    var a2, b2 := RefreshMetric(a1, brand, Days30, cfg, ga, clock), RefreshMetric(b1, brand, Days30, cfg, ga, clock);
    RefreshMetricLocal(a1, b1, brand, Days30, cfg, ga, clock);
    var a3, b3 := RefreshMetric(a2, brand, Days365, cfg, ga, clock), RefreshMetric(b2, brand, Days365, cfg, ga, clock);
    RefreshMetricLocal(a2, b2, brand, Days365, cfg, ga, clock);
    RefreshMetricLocal(a3, b3, brand, Now, cfg, ga, clock);
  }

  /** Brands outside the list are left alone by the whole run. */
  lemma {:induction false} RefreshAllOther(st: CacheState, brands: seq<string>, cfg: RouteConfig, ga: Analytics, clock: Clock, b: string)
    requires ValidClock(clock) && b !in brands
    ensures SameBrand(st, RefreshAll(st, brands, cfg, ga, clock), b)
    decreases |brands|
  {
    if brands != [] {
      var init := brands[..|brands| - 1];
      assert b !in init by { assert forall x :: x in init ==> x in brands; }
      RefreshAllOther(st, init, cfg, ga, clock, b);
      RefreshBrandOther(RefreshAll(st, init, cfg, ga, clock), brands[|brands| - 1], cfg, ga, clock, b);
    }
  }

  /** The brands' callbacks commute: after the run over distinct brands, each
      brand holds exactly what its own callback alone would have left, so the
      order in which the concurrent callbacks interleave does not matter. */
  lemma {:induction false} RefreshAllIsPerBrand(st: CacheState, brands: seq<string>, cfg: RouteConfig, ga: Analytics, clock: Clock, b: string)
    requires ValidClock(clock)
    requires Distinct(brands) && b in brands
    ensures SameBrand(RefreshAll(st, brands, cfg, ga, clock), RefreshBrand(st, b, cfg, ga, clock), b)
    decreases |brands|
  {
    var init := brands[..|brands| - 1];
    var last := brands[|brands| - 1];
    var before := RefreshAll(st, init, cfg, ga, clock);
    DistinctPrefix(brands);
    if last == b {
      RefreshAllOther(st, init, cfg, ga, clock, b);
      RefreshBrandLocal(before, st, b, cfg, ga, clock);
    } else {
      assert b in init by {
        var i :| 0 <= i < |brands| && brands[i] == b;
        assert init[i] == b;
      }
      RefreshAllIsPerBrand(st, init, cfg, ga, clock, b);
      RefreshBrandOther(before, last, cfg, ga, clock, b);
    }
  }

  /** After a brand's work every one of its metrics is fresh at the request
      instant: a stale one was just stamped, a fresh one was left as it was. */
  lemma RefreshBrandFresh(st: CacheState, brand: string, cfg: RouteConfig, ga: Analytics, clock: Clock, m: Metric)
    requires ValidClock(clock)
    ensures IsFresh(RefreshBrand(st, brand, cfg, ga, clock).timestamps, StatKey(brand, m), Ttl(m, clock), clock.now)
  {
    var s0 := Initialised(st, brand);
    var s1 := RefreshMetric(s0, brand, Today, cfg, ga, clock);
    var s2 := RefreshMetric(s1, brand, Days30, cfg, ga, clock);
    var s3 := RefreshMetric(s2, brand, Days365, cfg, ga, clock);
    var s4 := RefreshMetric(s3, brand, Now, cfg, ga, clock);
    var k := StatKey(brand, m);
    StepFreshOrKept(s0, brand, Today, cfg, ga, clock, m);
    StepFreshOrKept(s1, brand, Days30, cfg, ga, clock, m);
    StepFreshOrKept(s2, brand, Days365, cfg, ga, clock, m);
    StepFreshOrKept(s3, brand, Now, cfg, ga, clock, m);
  }

  /** A metric step makes its own metric fresh and keeps every other
      metric's timestamp of the brand. */
  lemma StepFreshOrKept(st: CacheState, brand: string, step: Metric, cfg: RouteConfig, ga: Analytics, clock: Clock, m: Metric)
    requires ValidClock(clock) && Get(st.data, brand).Some?
    ensures var r := RefreshMetric(st, brand, step, cfg, ga, clock);
            (m == step ==> IsFresh(r.timestamps, StatKey(brand, m), Ttl(m, clock), clock.now))
            && (m != step ==> TimestampOf(r.timestamps, StatKey(brand, m)) == TimestampOf(st.timestamps, StatKey(brand, m)))
  {
    if m != step && StatKey(brand, m) == StatKey(brand, step) {
      StatKeyInjective(brand, m, brand, step);
    }
  }

  /** What a brand's work does to one metric: a fresh metric keeps its value
      (zero for a new brand) and its timestamp; a stale one is stamped with the
      request instant and holds the fetched value, the realtime count being
      computed from the today count as it stands after the today step. */
  lemma RefreshBrandMetric(st: CacheState, brand: string, cfg: RouteConfig, ga: Analytics, clock: Clock, m: Metric)
    requires ValidClock(clock)
    ensures var before := Get(Initialised(st, brand).data, brand).value;
            var r := RefreshBrand(st, brand, cfg, ga, clock);
            var after := Get(r.data, brand).value;
            (IsFresh(st.timestamps, StatKey(brand, m), Ttl(m, clock), clock.now) ==>
               StatOf(after, m) == StatOf(before, m)
               && TimestampOf(r.timestamps, StatKey(brand, m)) == TimestampOf(st.timestamps, StatKey(brand, m)))
            && (!IsFresh(st.timestamps, StatKey(brand, m), Ttl(m, clock), clock.now) ==>
               StatOf(after, m) == Fetched(m, brand, after, cfg, ga)
               && TimestampOf(r.timestamps, StatKey(brand, m)) == Some(clock.now))
  {
    var s0 := Initialised(st, brand);
    var s1 := RefreshMetric(s0, brand, Today, cfg, ga, clock);
    var s2 := RefreshMetric(s1, brand, Days30, cfg, ga, clock);
    var s3 := RefreshMetric(s2, brand, Days365, cfg, ga, clock);
    var s4 := RefreshMetric(s3, brand, Now, cfg, ga, clock);
    StepValue(s0, brand, Today, cfg, ga, clock, m);
    StepValue(s1, brand, Days30, cfg, ga, clock, m);
    StepValue(s2, brand, Days365, cfg, ga, clock, m);
    StepValue(s3, brand, Now, cfg, ga, clock, m);
    StepFreshOrKept(s0, brand, Today, cfg, ga, clock, m);
    StepFreshOrKept(s1, brand, Days30, cfg, ga, clock, m);
    StepFreshOrKept(s2, brand, Days365, cfg, ga, clock, m);
    StepFreshOrKept(s3, brand, Now, cfg, ga, clock, m);
    StepValue(s1, brand, Days30, cfg, ga, clock, Today);
    StepValue(s2, brand, Days365, cfg, ga, clock, Today);
    StepValue(s3, brand, Now, cfg, ga, clock, Today);
  }

  /** A metric step on `step` as seen from metric `m` of the same brand. */
  lemma StepValue(st: CacheState, brand: string, step: Metric, cfg: RouteConfig, ga: Analytics, clock: Clock, m: Metric)
    requires ValidClock(clock) && Get(st.data, brand).Some?
    ensures var s := Get(st.data, brand).value;
            var r := RefreshMetric(st, brand, step, cfg, ga, clock);
            var s' := Get(r.data, brand).value;
            (m != step ==> StatOf(s', m) == StatOf(s, m))
            && (m == step && IsFresh(st.timestamps, StatKey(brand, m), Ttl(m, clock), clock.now) ==> s' == s)
            && (m == step && !IsFresh(st.timestamps, StatKey(brand, m), Ttl(m, clock), clock.now) ==>
                  StatOf(s', m) == Fetched(m, brand, s, cfg, ga))
  {
    var s := Get(st.data, brand).value;
    PutGet(st.data, brand, WithStat(s, step, Fetched(step, brand, s, cfg, ga)), brand);
  }

  /** No string occurs twice (the keys of an object). */
  predicate Distinct(s: seq<string>) {
    forall i, j :: 0 <= i < j < |s| ==> s[i] != s[j]
  }

  /** Dropping the last element keeps a sequence distinct and that element new. */
  lemma DistinctPrefix(s: seq<string>)
    requires Distinct(s) && s != []
    ensures Distinct(s[..|s| - 1]) && s[|s| - 1] !in s[..|s| - 1]
  {
    var init := s[..|s| - 1];
    forall i | 0 <= i < |init| ensures init[i] != s[|s| - 1] { assert init[i] == s[i]; }
  }

  /** After a request that cleared the cache, the data object lists exactly
      the configured brands, in configuration order. */
  lemma {:induction false} RefreshAllFromEmpty(brands: seq<string>, cfg: RouteConfig, ga: Analytics, clock: Clock)
    requires ValidClock(clock)
    requires Distinct(brands)
    ensures Keys(RefreshAll(CacheState([], map[]), brands, cfg, ga, clock).data) == brands
    decreases |brands|
  {
    if brands != [] {
      var init := brands[..|brands| - 1];
      var last := brands[|brands| - 1];
      assert init + [last] == brands;
      DistinctPrefix(brands);
      RefreshAllFromEmpty(init, cfg, ga, clock);
      var before := RefreshAll(CacheState([], map[]), init, cfg, ga, clock);
      assert RefreshAll(CacheState([], map[]), brands, cfg, ga, clock) == RefreshBrand(before, last, cfg, ga, clock);
      NewBrandKeys(before, last, cfg, ga, clock);
    }
  }

  /** A brand not yet in the data object is appended after the others. */
  lemma NewBrandKeys(st: CacheState, brand: string, cfg: RouteConfig, ga: Analytics, clock: Clock)
    requires ValidClock(clock) && brand !in Keys(st.data)
    ensures Keys(RefreshBrand(st, brand, cfg, ga, clock).data) == Keys(st.data) + [brand]
  {
  }

  /** Object keys are distinct. */
  lemma KeysDistinct<V>(m: seq<(string, V)>)
    requires UniqueKeys(m)
    ensures Distinct(Keys(m))
  {
    assert forall i :: 0 <= i < |m| ==> Keys(m)[i] == m[i].0;
  }

  /** A request with `cache=false` answers with exactly the configured
      brands, in configuration order. */
  lemma ClearedRequestKeys(st: CacheState, cfg: RouteConfig, ga: Analytics, clock: Clock)
    requires ValidClock(clock) && UniqueKeys(cfg.props)
    ensures Keys(Handled(st, Some("false"), cfg, ga, clock).data) == Keys(cfg.props)
  {
    KeysDistinct(cfg.props);
    RefreshAllFromEmpty(Keys(cfg.props), cfg, ga, clock);
  }

  /** Whatever the interleaving of the brands' callbacks, each configured
      brand ends up as its own callback leaves it, and a brand that is not
      configured keeps its stats and timestamps. */
  lemma HandledPerBrand(st: CacheState, cacheParam: Option<string>, cfg: RouteConfig, ga: Analytics, clock: Clock, b: string)
    requires ValidClock(clock) && UniqueKeys(cfg.props)
    ensures b in Keys(cfg.props) ==>
              SameBrand(Handled(st, cacheParam, cfg, ga, clock), RefreshBrand(Cleared(st, cacheParam), b, cfg, ga, clock), b)
    ensures b !in Keys(cfg.props) ==> SameBrand(Cleared(st, cacheParam), Handled(st, cacheParam, cfg, ga, clock), b)
  {
    KeysDistinct(cfg.props);
    if b in Keys(cfg.props) {
      RefreshAllIsPerBrand(Cleared(st, cacheParam), Keys(cfg.props), cfg, ga, clock, b);
    } else {
      RefreshAllOther(Cleared(st, cacheParam), Keys(cfg.props), cfg, ga, clock, b);
    }
  }
}
