/** What the two editorial dashboards share: their display settings, the
    defaults those start from, and the modular stepping of the index of the
    brand on show. */
module EditorialCommon {
  import opened Wrappers
  import opened JsNumber
  import opened UrlParams
  import opened BrandDashboard
  /** The settings a dashboard passes on to each brand view. */
  datatype DisplaySettings = DisplaySettings(
    rotation: int,
    stripspeed: int,
    cardduration: int,
    activeNowIntervalms: int,
    activeTodayIntervalms: int,
    autoFullscreen: bool)

  /** `DEFAULTS`. */
  const Defaults: DisplaySettings := DisplaySettings(60000, 100, 4000, 10000, 60000, false)

  /** The URL parameters the editorial pages read and write. */
  datatype SettingName = Rotation | StripSpeed | CardDuration | ActiveTodayInterval | ActiveNowInterval | Fullscreen

  /** Each parameter's name in the query string. */
  function ParamName(n: SettingName): (s: string)
    ensures s != ""
  {
    match n
    case Rotation => "rotation"
    case StripSpeed => "stripspeed"
    case CardDuration => "cardduration"
    case ActiveTodayInterval => "activeTodayIntervalms"
    case ActiveNowInterval => "activeNowIntervalms"
    case Fullscreen => "fullscreen"
  }

  /** Distinct parameters have distinct names, so looking a parameter up by
      its datatype value is looking it up by its name. */
  lemma ParamNameInjective(a: SettingName, b: SettingName)
    requires a != b
    ensures ParamName(a) != ParamName(b)
  {
    if |ParamName(a)| == |ParamName(b)| {
      assert {a, b} == {StripSpeed, Fullscreen};
      assert ParamName(StripSpeed)[0] != ParamName(Fullscreen)[0];
    }
  }

  /** The query a settings link writes: each setting, in the order rotation,
      strip speed, card duration, active-today interval, active-now interval,
      fullscreen, set only when it differs from its default. */
  function OmitDefaults(s: DisplaySettings): (q: Query<SettingName>)
    ensures Param(q, Rotation) == if s.rotation != 60000 then Some(IntToString(s.rotation)) else None
    ensures Param(q, StripSpeed) == if s.stripspeed != 100 then Some(IntToString(s.stripspeed)) else None
    ensures Param(q, CardDuration) == if s.cardduration != 4000 then Some(IntToString(s.cardduration)) else None
    ensures Param(q, ActiveTodayInterval) ==
              if s.activeTodayIntervalms != 60000 then Some(IntToString(s.activeTodayIntervalms)) else None
    ensures Param(q, ActiveNowInterval) ==
              if s.activeNowIntervalms != 10000 then Some(IntToString(s.activeNowIntervalms)) else None
    ensures Param(q, Fullscreen) == if s.autoFullscreen then Some("1") else None
  {
    var q3 := OmitFirstDefaults(s);
    var q4 := SetWhen(q3, s.activeTodayIntervalms != 60000,
                      ActiveTodayInterval, IntToString(s.activeTodayIntervalms));
    var q5 := SetWhen(q4, s.activeNowIntervalms != 10000,
                      ActiveNowInterval, IntToString(s.activeNowIntervalms));
    SetWhen(q5, s.autoFullscreen, Fullscreen, "1")
  }

  /** The first three parameters the link sets. */
  function OmitFirstDefaults(s: DisplaySettings): (q: Query<SettingName>)
    ensures Param(q, Rotation) == if s.rotation != 60000 then Some(IntToString(s.rotation)) else None
    ensures Param(q, StripSpeed) == if s.stripspeed != 100 then Some(IntToString(s.stripspeed)) else None
    ensures Param(q, CardDuration) == if s.cardduration != 4000 then Some(IntToString(s.cardduration)) else None
    ensures Param(q, ActiveTodayInterval).None? && Param(q, ActiveNowInterval).None? && Param(q, Fullscreen).None?
  {
    var q1 := SetWhen([], s.rotation != 60000, Rotation, IntToString(s.rotation));
    var q2 := SetWhen(q1, s.stripspeed != 100, StripSpeed, IntToString(s.stripspeed));
    SetWhen(q2, s.cardduration != 4000, CardDuration, IntToString(s.cardduration))
  }

  /** The defaults write an empty query. */
  lemma DefaultsOmitted()
    ensures OmitDefaults(Defaults) == []
  {
  }

  /** `params.get(name)` when it is present and `Number` of it is not `NaN`. */
  function NumericParam(q: Query<SettingName>, name: SettingName): (v: Option<int>)
    ensures Param(q, name).None? ==> v.None?
    ensures Param(q, name).Some? ==> v == ParseNumber(Param(q, name).value)
  {
    match Param(q, name)
    case None => None
    case Some(s) => ParseNumber(s)
  }

  /** A number written only when it differs from its default reads back as
      itself, the default standing in when it was left out. */
  lemma NumericBack(q: Query<SettingName>, name: SettingName, n: int, dflt: int)
    requires Param(q, name) == if n != dflt then Some(IntToString(n)) else None
    ensures NumericParam(q, name).GetOr(dflt) == n
  {
    if n != dflt {
      ParseIntToString(n);
    }
  }

  /** JavaScript's `%`, whose result takes the sign of the dividend. */
  function JsRem(a: int, n: int): (r: int)
    requires n > 0
    ensures a >= 0 ==> r == a % n
    ensures -n < r < n
  {
    if a >= 0 then a % n else -((-a) % n)
  }

  /** The next-brand step `(i + 1) % n`. */
  function NextIndex(i: int, n: int): (j: int)
    requires n > 0
    ensures 0 <= i < n ==> 0 <= j < n && (j == i + 1 || (i == n - 1 && j == 0))
  {
    JsRem(i + 1, n)
  }

  /** The previous-brand step `(i - 1 + n) % n`. */
  function PrevIndex(i: int, n: int): (j: int)
    requires n > 0
    ensures 0 <= i < n ==> 0 <= j < n && (j == i - 1 || (i == 0 && j == n - 1))
  {
    JsRem(i - 1 + n, n)
  }

  /** Previous undoes next and next undoes previous. */
  lemma PrevNextInverse(i: int, n: int)
    requires 0 <= i < n
    ensures PrevIndex(NextIndex(i, n), n) == i
    ensures NextIndex(PrevIndex(i, n), n) == i
  {
  }

  /** A brand as the dashboards list it: its code and its site configuration. */
  datatype BrandEntry = BrandEntry(brand: string, siteConfig: SiteConfig)

  /** `Object.entries(config).map(([brand, siteConfig]) => ({ brand, siteConfig }))`. */
  function BrandEntries(config: seq<(string, SiteConfig)>): (r: seq<BrandEntry>)
    ensures |r| == |config|
    ensures forall i :: 0 <= i < |r| ==> r[i].brand == config[i].0 && r[i].siteConfig == config[i].1
  {
    seq(|config|, i requires 0 <= i < |config| => BrandEntry(config[i].0, config[i].1))
  }

  /** What a rotating dashboard holds: its settings, the brands, the index of
      the brand on show and whether the page is in fullscreen. */
  datatype View = View(
    settings: DisplaySettings,
    brands: seq<BrandEntry>,
    currentIndex: int,
    isFullscreen: bool)

  /** The state on mount: the defaults, no brands yet, the first index. */
  const Mounted: View := View(Defaults, [], 0, false)

  /** The index names a brand once there are brands, and is 0 before. */
  predicate Valid(v: View) {
    if v.brands == [] then v.currentIndex == 0 else 0 <= v.currentIndex < |v.brands|
  }

  /** The rotation interval runs only with brands to show and a positive period. */
  predicate Rotating(v: View) {
    |v.brands| > 0 && v.settings.rotation > 0
  }

  /** One firing of the rotation interval; nothing happens when none runs. */
  function Ticked(v: View): (r: View)
    ensures r.brands == v.brands && r.settings == v.settings
  {
    if Rotating(v) then v.(currentIndex := NextIndex(v.currentIndex, |v.brands|)) else v
  }

  /** `k` firings of the rotation interval. */
  function Ticks(v: View, k: nat): (r: View)
    ensures r.brands == v.brands && r.settings == v.settings
  {
    if k == 0 then v else Ticked(Ticks(v, k - 1))
  }

  /** The Prev and Next buttons, shown only once there are brands. */
  function Stepped(v: View, forward: bool): (r: View)
    requires v.brands != []
    ensures r == v.(currentIndex := r.currentIndex)
    ensures Valid(v) && forward ==> r.currentIndex == if v.currentIndex == |v.brands| - 1 then 0 else v.currentIndex + 1
    ensures Valid(v) && !forward ==> r.currentIndex == if v.currentIndex == 0 then |v.brands| - 1 else v.currentIndex - 1
  {
    v.(currentIndex := if forward then NextIndex(v.currentIndex, |v.brands|)
                       else PrevIndex(v.currentIndex, |v.brands|))
  }

  /** The brands request: `None` when there is no base URL, the fetch or its
      JSON fails, or the page has gone; the brands are replaced otherwise. */
  function Loaded(v: View, config: Option<seq<(string, SiteConfig)>>): (r: View)
    ensures config.None? ==> r == v
    ensures r.settings == v.settings && r.currentIndex == v.currentIndex && r.isFullscreen == v.isFullscreen
    ensures config.Some? ==> |r.brands| == |config.value|
                             && forall i :: 0 <= i < |r.brands| ==> r.brands[i].brand == config.value[i].0
  {
    match config
    case None => v
    case Some(c) => v.(brands := BrandEntries(c))
  }

  /** What the page renders: `None` is the loading screen, otherwise the
      brand whose dashboard is on show. */
  function CurrentBrand(v: View): (b: Option<BrandEntry>)
    requires Valid(v)
    ensures b.None? <==> v.brands == []
    ensures b.Some? ==> b.value in v.brands
  {
    if v.brands == [] then None else Some(v.brands[v.currentIndex])
  }

  /** Every transition keeps the index on a brand. */
  lemma TransitionsKeepValid(v: View, forward: bool, config: Option<seq<(string, SiteConfig)>>)
    requires Valid(v)
    ensures Valid(Ticked(v))
    ensures v.brands != [] ==> Valid(Stepped(v, forward))
    ensures v.brands == [] ==> Valid(Loaded(v, config))
  {
  }

  /** A positive multiple of `n` is at least `n`. */
  lemma MulAtLeast(e: int, n: int)
    requires e >= 1 && n > 0
    ensures e * n >= n
  {
    assert e * n == (e - 1) * n + n;
  }

  /** Euclidean division splits `x` into a quotient and a remainder. */
  lemma DivMod(x: int, n: int)
    requires n > 0
    ensures x == (x / n) * n + x % n && 0 <= x % n < n
  {
  }

  /** The remainder of `q * n + r` is `r` when `0 <= r < n`. */
  lemma ModOf(x: int, n: int, q: int, r: int)
    requires n > 0 && 0 <= r < n && x == q * n + r
    ensures x % n == r
  {
    var q', r' := x / n, x % n;
    var e := q - q';
    assert e * n == r' - r by {
      assert x == q' * n + r';
      assert e * n == q * n - q' * n;
    }
    if e > 0 {
      MulAtLeast(e, n);
    } else if e < 0 {
      MulAtLeast(-e, n);
    }
  }

  /** The remainder of the successor: one more, or 0 after `n - 1`. */
  lemma ModSucc(x: int, n: int)
    requires n > 0
    ensures (x + 1) % n == if x % n + 1 < n then x % n + 1 else 0
  {
    var d := x / n;
    DivMod(x, n);
    if x % n + 1 < n {
      ModOf(x + 1, n, d, x % n + 1);
    } else {
      assert (d + 1) * n == d * n + n;
      ModOf(x + 1, n, d + 1, 0);
    }
  }

  /** `k` firings of a running interval move the index `k` places on, round
      the brands. */
  lemma {:induction false} TicksAdvance(v: View, k: nat)
    requires Valid(v) && Rotating(v)
    ensures Ticks(v, k).currentIndex == (v.currentIndex + k) % |v.brands|
  {
    var n := |v.brands|;
    if k == 0 {
      ModOf(v.currentIndex, n, 0, v.currentIndex);
    } else {
      TicksAdvance(v, k - 1);
      var x := v.currentIndex + k - 1;
      var prev := Ticks(v, k - 1);
      assert prev.currentIndex == x % n && 0 <= x % n < n;
      assert Ticks(v, k) == Ticked(prev);
      ModSucc(x, n);
    }
  }

  /** How many steps forward round `n` places lead from `c` to `j`. */
  function StepsTo(c: int, j: int, n: int): int {
    if j >= c then j - c else j - c + n
  }

  lemma StepsToReach(c: int, j: int, n: int)
    requires 0 <= c < n && 0 <= j < n
    ensures 0 <= StepsTo(c, j, n) < n && (c + StepsTo(c, j, n)) % n == j
  {
    if j >= c {
      ModOf(c + StepsTo(c, j, n), n, 0, j);
    } else {
      ModOf(c + StepsTo(c, j, n), n, 1, j);
    }
  }

  /** With the rotation running, every brand comes on show within as many
      firings as there are brands. */
  lemma EveryBrandShown(v: View, j: int)
    requires Valid(v) && Rotating(v) && 0 <= j < |v.brands|
    ensures exists k: nat :: k < |v.brands| && Ticks(v, k).currentIndex == j
  {
    var k := StepsTo(v.currentIndex, j, |v.brands|);
    StepsToReach(v.currentIndex, j, |v.brands|);
    TicksAdvance(v, k);
  }

  /** A paused rotation (a period of zero or less) never moves the index. */
  lemma {:induction false} PausedStays(v: View, k: nat)
    requires v.settings.rotation <= 0
    ensures Ticks(v, k) == v
  {
    if k > 0 {
      PausedStays(v, k - 1);
    }
  }
}
