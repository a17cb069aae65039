/** The editorial dashboard page: like the client view it rotates through the
    editorial brands, but it takes a URL setting only when it is in range
    (a rotation of zero or more, positive durations and strip speed) and its
    settings link always writes every setting. */
module EditorialPage {
  import opened Wrappers
  import opened JsNumber
  import opened UrlParams
  import opened BrandDashboard
  import opened EditorialCommon
  import SettingsClient

  /** A numeric setting from the URL, taken only when at least `least`. */
  function AtLeast(v: Option<int>, least: int, current: int): (r: int)
    ensures v.Some? && v.value >= least ==> r == v.value
    ensures (v.None? || v.value < least) ==> r == current
  {
    if v.Some? && v.value >= least then v.value else current
  }

  /** The settings the page accepts: a rotation of zero (paused) or more and
      positive strip speed and durations. */
  predicate InRange(s: DisplaySettings) {
    s.rotation >= 0 && s.stripspeed > 0 && s.cardduration > 0
    && s.activeNowIntervalms > 0 && s.activeTodayIntervalms > 0
  }

  /** The initialisation effect. */
  function Init(s: DisplaySettings, q: Query<SettingName>): DisplaySettings {
    DisplaySettings(
      AtLeast(NumericParam(q, Rotation), 0, s.rotation),
      AtLeast(NumericParam(q, StripSpeed), 1, s.stripspeed),
      AtLeast(NumericParam(q, CardDuration), 1, s.cardduration),
      AtLeast(NumericParam(q, ActiveNowInterval), 1, s.activeNowIntervalms),
      AtLeast(NumericParam(q, ActiveTodayInterval), 1, s.activeTodayIntervalms),
      match Param(q, Fullscreen) case None => s.autoFullscreen case Some(v) => v == "1")
  }

  /** The Settings button's parameters: all five numbers, and `fullscreen=1`
      when fullscreen was asked for or the page is in fullscreen now. */
  function LinkParams(s: DisplaySettings, isFullscreen: bool): (q: Query<SettingName>)
    ensures Param(q, Rotation) == Some(IntToString(s.rotation))
    ensures Param(q, StripSpeed) == Some(IntToString(s.stripspeed))
    ensures Param(q, CardDuration) == Some(IntToString(s.cardduration))
    ensures Param(q, ActiveTodayInterval) == Some(IntToString(s.activeTodayIntervalms))
    ensures Param(q, ActiveNowInterval) == Some(IntToString(s.activeNowIntervalms))
    ensures Param(q, Fullscreen) == if s.autoFullscreen || isFullscreen then Some("1") else None
  {
    var q1 := SetParam([], Rotation, IntToString(s.rotation));
    var q2 := SetParam(q1, StripSpeed, IntToString(s.stripspeed));
    var q3 := SetParam(q2, CardDuration, IntToString(s.cardduration));
    var q4 := SetParam(q3, ActiveTodayInterval, IntToString(s.activeTodayIntervalms));
    var q5 := SetParam(q4, ActiveNowInterval, IntToString(s.activeNowIntervalms));
    SetWhen(q5, s.autoFullscreen || isFullscreen, Fullscreen, "1")
  }

  /** Where the Settings button navigates. */
  function SettingsLink(s: DisplaySettings, isFullscreen: bool): string {
    "/dashboard/editorial/settings?" + QueryString(LinkParams(s, isFullscreen), ParamName)
  }

  /** The dashboard page's state. */
  class EditorialDashboard {
    var rotationInterval: int
    var stripspeed: int
    var cardduration: int
    var activeNowIntervalms: int
    var activeTodayIntervalms: int
    var autoFullscreen: bool
    var brands: seq<BrandEntry>
    var currentIndex: int
    var isFullscreen: bool

    function Settings(): DisplaySettings
      reads this
    {
      DisplaySettings(rotationInterval, stripspeed, cardduration, activeNowIntervalms,
                      activeTodayIntervalms, autoFullscreen)
    }

    function Current(): View
      reads this
    {
      View(Settings(), brands, currentIndex, isFullscreen)
    }

    constructor()
      ensures Current() == Mounted
    {
      rotationInterval, stripspeed, cardduration := 60000, 100, 4000;
      activeNowIntervalms, activeTodayIntervalms, autoFullscreen := 10000, 60000, false;
      brands, currentIndex := [], 0;
      isFullscreen := false;
    }

    /** The effect run on each change of the search parameters. */
    method InitFromUrl(q: Query<SettingName>)
      modifies this
      ensures Current() == old(Current()).(settings := Init(old(Settings()), q))
    {
      SetSettings(Init(Settings(), q));
    }

    /** The six setters of the settings, called together. */
    method SetSettings(s: DisplaySettings)
      modifies this
      ensures Current() == old(Current()).(settings := s)
    {
      rotationInterval, stripspeed, cardduration := s.rotation, s.stripspeed, s.cardduration;
      activeNowIntervalms, activeTodayIntervalms := s.activeNowIntervalms, s.activeTodayIntervalms;
      autoFullscreen := s.autoFullscreen;
    }

    /** The `fullscreenchange` listener. */
    method FullscreenChanged(nowFullscreen: bool)
      modifies this
      ensures Current() == old(Current()).(isFullscreen := nowFullscreen)
    {
      isFullscreen := nowFullscreen;
    }

    /** The brands request settling; `None` leaves the brands alone. */
    method LoadBrands(config: Option<seq<(string, SiteConfig)>>)
      modifies this
      ensures Current() == Loaded(old(Current()), config)
    {
      if config.Some? {
        brands := BrandEntries(config.value);
      }
    }

    /** One firing of the rotation interval. */
    method Tick()
      modifies this
      ensures Current() == Ticked(old(Current()))
    {
      if |brands| > 0 && rotationInterval > 0 {
        currentIndex := NextIndex(currentIndex, |brands|);
      }
    }

    /** The Prev button. */
    method Prev()
      requires brands != []
      modifies this
      ensures Current() == Stepped(old(Current()), false)
    {
      currentIndex := PrevIndex(currentIndex, |brands|);
    }

    /** The Next button. */
    method Next()
      requires brands != []
      modifies this
      ensures Current() == Stepped(old(Current()), true)
    {
      currentIndex := NextIndex(currentIndex, |brands|);
    }

    /** A choice in the rotation menu. */
    method SetRotation(option: int)
      modifies this
      ensures Current() == old(Current()).(settings := old(Settings()).(rotation := option))
    {
      rotationInterval := option;
    }

    /** The Settings button: the URL it navigates to. */
    method OpenSettings() returns (url: string)
      ensures url == SettingsLink(Settings(), isFullscreen)
    {
      var params: Query<SettingName> := [];
      params := SetParam(params, Rotation, IntToString(rotationInterval));
      params := SetParam(params, StripSpeed, IntToString(stripspeed));
      params := SetParam(params, CardDuration, IntToString(cardduration));
      params := SetParam(params, ActiveTodayInterval, IntToString(activeTodayIntervalms));
      params := SetParam(params, ActiveNowInterval, IntToString(activeNowIntervalms));
      if autoFullscreen || isFullscreen { params := SetParam(params, Fullscreen, "1"); }
      url := "/dashboard/editorial/settings?" + QueryString(params, ParamName);
    }
  }

  /** Out-of-range values are refused, so settings in range stay in range
      whatever the URL says. */
  lemma InitKeepsInRange(s: DisplaySettings, q: Query<SettingName>)
    requires InRange(s)
    ensures InRange(Init(s, q))
  {
  }

  /** The defaults are in range. */
  lemma DefaultsInRange()
    ensures InRange(Defaults)
  {
  }

  /** Settings in range survive the settings link; fullscreen comes back on
      when the page was in fullscreen. */
  lemma LinkInitRoundTrip(s: DisplaySettings, isFullscreen: bool)
    requires InRange(s)
    ensures Init(Defaults, LinkParams(s, isFullscreen)) == s.(autoFullscreen := s.autoFullscreen || isFullscreen)
  {
    ParseIntToString(s.rotation);
    ParseIntToString(s.stripspeed);
    ParseIntToString(s.cardduration);
    ParseIntToString(s.activeNowIntervalms);
    ParseIntToString(s.activeTodayIntervalms);
  }

  /** The URL the settings page saves to sets up the page with exactly the
      saved settings, as long as the saved rotation is not negative and the
      strip speed is positive (the durations always are). */
  lemma SavedSettingsApplied(f: SettingsClient.Form)
    requires f.rotation >= 0 && f.stripSpeed > 0
    ensures Init(Defaults, SettingsClient.SaveParams(f)) == SettingsClient.Saved(f)
  {
    var s := SettingsClient.Saved(f);
    var q := SettingsClient.SaveParams(f);
    NumericBack(q, Rotation, s.rotation, 60000);
    NumericBack(q, StripSpeed, s.stripspeed, 100);
    NumericBack(q, CardDuration, s.cardduration, 4000);
    NumericBack(q, ActiveNowInterval, s.activeNowIntervalms, 10000);
    NumericBack(q, ActiveTodayInterval, s.activeTodayIntervalms, 60000);
  }

  /** A duration in whole seconds at or above its floor, read by the settings
      page from milliseconds and written back. */
  lemma WholeSecondsBack(ms: int, least: int)
    requires ms % 1000 == 0 && ms >= least * 1000
    ensures SettingsClient.Max(SettingsClient.Seconds(least, ms), least) * 1000 == ms
  {
    var sec := ms / 1000;
    assert ms == sec * 1000;
    SettingsClient.SecondsBack(least, sec);
  }

  /** Opening the settings page from the dashboard and saving it unchanged
      gives the dashboard back its settings, when each duration is a whole
      number of seconds at or above the settings page's floor. */
  lemma SettingsUnchangedRoundTrip(s: DisplaySettings, isFullscreen: bool)
    requires InRange(s)
    requires s.cardduration % 1000 == 0 && s.cardduration >= SettingsClient.MinCardSec * 1000
    requires s.activeTodayIntervalms % 1000 == 0 && s.activeTodayIntervalms >= SettingsClient.MinTodaySec * 1000
    requires s.activeNowIntervalms % 1000 == 0 && s.activeNowIntervalms >= SettingsClient.MinNowSec * 1000
    ensures var f := SettingsClient.Init(SettingsClient.DefaultForm, LinkParams(s, isFullscreen));
            Init(Defaults, SettingsClient.SaveParams(f)) == s.(autoFullscreen := s.autoFullscreen || isFullscreen)
  {
    var q := LinkParams(s, isFullscreen);
    var f := SettingsClient.Init(SettingsClient.DefaultForm, q);
    ParseIntToString(s.rotation);
    ParseIntToString(s.stripspeed);
    ParseIntToString(s.cardduration);
    ParseIntToString(s.activeNowIntervalms);
    ParseIntToString(s.activeTodayIntervalms);
    WholeSecondsBack(s.cardduration, SettingsClient.MinCardSec);
    WholeSecondsBack(s.activeTodayIntervalms, SettingsClient.MinTodaySec);
    WholeSecondsBack(s.activeNowIntervalms, SettingsClient.MinNowSec);
    assert SettingsClient.Saved(f) == s.(autoFullscreen := s.autoFullscreen || isFullscreen);
    SavedSettingsApplied(f);
  }
}
