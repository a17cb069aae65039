/** The editorial dashboard's client view: it reads its settings from the URL
    (any number is taken as it is), rotates through the editorial brands and
    links to the settings page with only the settings that differ from the
    defaults. */
module EditorialClient {
  import opened Wrappers
  import opened JsNumber
  import opened UrlParams
  import opened BrandDashboard
  import opened EditorialCommon
  import SettingsClient

  /** The initialisation effect: each numeric setting is replaced when its
      parameter is a number, and `fullscreen` when present, by whether it is
      `"1"`. */
  function Init(s: DisplaySettings, q: Query<SettingName>): (r: DisplaySettings)
    ensures NumericParam(q, Rotation).Some? ==> r.rotation == NumericParam(q, Rotation).value
    ensures NumericParam(q, Rotation).None? ==> r.rotation == s.rotation
    ensures NumericParam(q, StripSpeed).Some? ==> r.stripspeed == NumericParam(q, StripSpeed).value
    ensures NumericParam(q, StripSpeed).None? ==> r.stripspeed == s.stripspeed
    ensures NumericParam(q, CardDuration).Some? ==> r.cardduration == NumericParam(q, CardDuration).value
    ensures NumericParam(q, CardDuration).None? ==> r.cardduration == s.cardduration
    ensures NumericParam(q, ActiveNowInterval).Some? ==> r.activeNowIntervalms == NumericParam(q, ActiveNowInterval).value
    ensures NumericParam(q, ActiveNowInterval).None? ==> r.activeNowIntervalms == s.activeNowIntervalms
    ensures NumericParam(q, ActiveTodayInterval).Some? ==> r.activeTodayIntervalms == NumericParam(q, ActiveTodayInterval).value
    ensures NumericParam(q, ActiveTodayInterval).None? ==> r.activeTodayIntervalms == s.activeTodayIntervalms
    ensures Param(q, Fullscreen).Some? ==> r.autoFullscreen == (Param(q, Fullscreen).value == "1")
    ensures Param(q, Fullscreen).None? ==> r.autoFullscreen == s.autoFullscreen
  {
    DisplaySettings(
      NumericParam(q, Rotation).GetOr(s.rotation),
      NumericParam(q, StripSpeed).GetOr(s.stripspeed),
      NumericParam(q, CardDuration).GetOr(s.cardduration),
      NumericParam(q, ActiveNowInterval).GetOr(s.activeNowIntervalms),
      NumericParam(q, ActiveTodayInterval).GetOr(s.activeTodayIntervalms),
      match Param(q, Fullscreen) case None => s.autoFullscreen case Some(v) => v == "1")
  }

  /** Where the Settings button navigates. */
  function SettingsLink(s: DisplaySettings): string {
    "/dashboard/editorial/settings?" + QueryString(OmitDefaults(s), ParamName)
  }

  /** The dashboard's state. */
  class EditorialView {
    var rotationInterval: int
    var stripspeed: int
    var cardduration: int
    var activeNowIntervalms: int
    var activeTodayIntervalms: int
    var autoFullscreen: bool
    var brands: seq<BrandEntry>
    var currentIndex: int
    var isFullscreen: bool

    function Settings(): DisplaySettings
      reads this
    {
      DisplaySettings(rotationInterval, stripspeed, cardduration, activeNowIntervalms,
                      activeTodayIntervalms, autoFullscreen)
    }

    function Current(): View
      reads this
    {
      View(Settings(), brands, currentIndex, isFullscreen)
    }

    constructor()
      ensures Current() == Mounted
    {
      rotationInterval, stripspeed, cardduration := 60000, 100, 4000;
      activeNowIntervalms, activeTodayIntervalms, autoFullscreen := 10000, 60000, false;
      brands, currentIndex := [], 0;
      isFullscreen := false;
    }

    /** The effect run on each change of the search parameters. */
    method InitFromUrl(q: Query<SettingName>)
      modifies this
      ensures Current() == old(Current()).(settings := Init(old(Settings()), q))
    {
      rotationInterval := NumericParam(q, Rotation).GetOr(rotationInterval);
      stripspeed := NumericParam(q, StripSpeed).GetOr(stripspeed);
      cardduration := NumericParam(q, CardDuration).GetOr(cardduration);
      activeNowIntervalms := NumericParam(q, ActiveNowInterval).GetOr(activeNowIntervalms);
      activeTodayIntervalms := NumericParam(q, ActiveTodayInterval).GetOr(activeTodayIntervalms);
      var fs := Param(q, Fullscreen);
      if fs.Some? { autoFullscreen := fs.value == "1"; }
    }

    /** The `fullscreenchange` listener. */
    method FullscreenChanged(nowFullscreen: bool)
      modifies this
      ensures Current() == old(Current()).(isFullscreen := nowFullscreen)
    {
      isFullscreen := nowFullscreen;
    }

    /** The brands request settling; `None` leaves the brands alone. */
    method LoadBrands(config: Option<seq<(string, SiteConfig)>>)
      modifies this
      ensures Current() == Loaded(old(Current()), config)
    {
      if config.Some? {
        brands := BrandEntries(config.value);
      }
    }

    /** One firing of the rotation interval. */
    method Tick()
      modifies this
      ensures Current() == Ticked(old(Current()))
    {
      if |brands| > 0 && rotationInterval > 0 {
        currentIndex := NextIndex(currentIndex, |brands|);
      }
    }

    /** The Prev button. */
    method Prev()
      requires brands != []
      modifies this
      ensures Current() == Stepped(old(Current()), false)
    {
      currentIndex := PrevIndex(currentIndex, |brands|);
    }

    /** The Next button. */
    method Next()
      requires brands != []
      modifies this
      ensures Current() == Stepped(old(Current()), true)
    {
      currentIndex := NextIndex(currentIndex, |brands|);
    }

    /** A choice in the rotation menu. */
    method SetRotation(option: int)
      modifies this
      ensures Current() == old(Current()).(settings := old(Settings()).(rotation := option))
    {
      rotationInterval := option;
    }

    /** The Settings button: the URL it navigates to. */
    method OpenSettings() returns (url: string)
      ensures url == SettingsLink(Settings())
    {
      var params: Query<SettingName> := [];
      params := SetWhen(params, rotationInterval != Defaults.rotation, Rotation, IntToString(rotationInterval));
      params := SetWhen(params, stripspeed != Defaults.stripspeed, StripSpeed, IntToString(stripspeed));
      params := SetWhen(params, cardduration != Defaults.cardduration, CardDuration, IntToString(cardduration));
      assert params == OmitFirstDefaults(Settings());
      params := SetWhen(params, activeTodayIntervalms != Defaults.activeTodayIntervalms,
                        ActiveTodayInterval, IntToString(activeTodayIntervalms));
      params := SetWhen(params, activeNowIntervalms != Defaults.activeNowIntervalms,
                        ActiveNowInterval, IntToString(activeNowIntervalms));
      params := SetWhen(params, autoFullscreen != Defaults.autoFullscreen, Fullscreen, "1");
      url := "/dashboard/editorial/settings?" + QueryString(params, ParamName);
    }
  }

  /** The settings the link writes are the settings a fresh dashboard reads
      back from it. */
  lemma LinkInitRoundTrip(s: DisplaySettings)
    ensures Init(Defaults, OmitDefaults(s)) == s
  {
    var q := OmitDefaults(s);
    NumericBack(q, Rotation, s.rotation, 60000);
    NumericBack(q, StripSpeed, s.stripspeed, 100);
    NumericBack(q, CardDuration, s.cardduration, 4000);
    NumericBack(q, ActiveNowInterval, s.activeNowIntervalms, 10000);
    NumericBack(q, ActiveTodayInterval, s.activeTodayIntervalms, 60000);
  }

  /** The URL the settings page saves to sets up a fresh dashboard with
      exactly the saved settings, durations in milliseconds. */
  lemma SavedSettingsApplied(f: SettingsClient.Form)
    ensures Init(Defaults, SettingsClient.SaveParams(f)) == SettingsClient.Saved(f)
  {
    LinkInitRoundTrip(SettingsClient.Saved(f));
  }

  /** The defaults give the bare settings link. */
  lemma DefaultLink()
    ensures SettingsLink(Defaults) == "/dashboard/editorial/settings?"
  {
    DefaultsOmitted();
  }
}
