/** The editorial settings form: durations are edited in whole seconds, read
    from milliseconds in the URL with a floor per field, and written back as
    milliseconds, a parameter only when it differs from the default. */
module SettingsClient {
  import opened Wrappers
  import opened JsNumber
  import opened UrlParams
  import opened EditorialCommon

  /** The form's fields; the three durations are in seconds. */
  datatype Form = Form(
    rotation: int,
    stripSpeed: int,
    cardDurationSec: int,
    activeNowSec: int,
    activeTodaySec: int,
    fullscreen: bool)

  /** The form as first rendered: the defaults, durations in seconds. */
  const DefaultForm: Form := Form(60000, 100, 4, 10, 60, false)

  /** The least card duration, active-today and active-now intervals, in seconds. */
  const MinCardSec: int := 2
  const MinTodaySec: int := 10
  const MinNowSec: int := 5

  function Max(a: int, b: int): (m: int)
    ensures m >= a && m >= b && (m == a || m == b)
  {
    if a >= b then a else b
  }

  /** `Math.max(least, Math.round(ms / 1000))`: a millisecond parameter as seconds. */
  function Seconds(least: int, ms: int): (sec: int)
    ensures sec >= least
    ensures sec > least ==> 2000 * sec - 1000 <= 2 * ms < 2000 * sec + 1000
    ensures sec == least <==> 2 * ms < 2000 * least + 1000
  {
    Max(least, RoundDiv(ms, 1000))
  }

  /** A seconds field read from the URL: kept when the parameter is absent or
      not a number. */
  function SecondsParam(q: Query<SettingName>, name: SettingName, least: int, old_: int): (sec: int)
    ensures NumericParam(q, name).None? ==> sec == old_
    ensures NumericParam(q, name).Some? ==> sec == Seconds(least, NumericParam(q, name).value)
  {
    match NumericParam(q, name)
    case None => old_
    case Some(ms) => Seconds(least, ms)
  }

  /** The initialisation effect: each numeric field is replaced when its
      parameter is a number, durations going through `Seconds`; `fullscreen`
      is replaced when present, by whether it is `"1"`. */
  function Init(f: Form, q: Query<SettingName>): (r: Form)
    ensures (forall n: SettingName :: Param(q, n).None?) ==> r == f
    ensures Param(q, CardDuration).Some? && ParseNumber(Param(q, CardDuration).value).Some? ==> r.cardDurationSec >= MinCardSec
    ensures Param(q, ActiveTodayInterval).Some? && ParseNumber(Param(q, ActiveTodayInterval).value).Some? ==>
              r.activeTodaySec >= MinTodaySec
    ensures Param(q, ActiveNowInterval).Some? && ParseNumber(Param(q, ActiveNowInterval).value).Some? ==>
              r.activeNowSec >= MinNowSec
  {
    Form(
      NumericParam(q, Rotation).GetOr(f.rotation),
      NumericParam(q, StripSpeed).GetOr(f.stripSpeed),
      SecondsParam(q, CardDuration, MinCardSec, f.cardDurationSec),
      SecondsParam(q, ActiveNowInterval, MinNowSec, f.activeNowSec),
      SecondsParam(q, ActiveTodayInterval, MinTodaySec, f.activeTodaySec),
      match Param(q, Fullscreen) case None => f.fullscreen case Some(v) => v == "1")
  }

  /** The millisecond values `handleSave` writes for the three durations. */
  function CardMs(f: Form): int { Max(f.cardDurationSec, MinCardSec) * 1000 }
  function TodayMs(f: Form): int { Max(f.activeTodaySec, MinTodaySec) * 1000 }
  function NowMs(f: Form): int { Max(f.activeNowSec, MinNowSec) * 1000 }

  /** The settings `handleSave` writes: durations back in milliseconds. */
  function Saved(f: Form): DisplaySettings {
    DisplaySettings(f.rotation, f.stripSpeed, CardMs(f), NowMs(f), TodayMs(f), f.fullscreen)
  }

  /** The parameters `handleSave` sets, in its order. */
  function SaveParams(f: Form): Query<SettingName> {
    OmitDefaults(Saved(f))
  }

  /** Where `handleSave` navigates. */
  function SaveUrl(f: Form): (url: string)
    ensures |url| >= 21 && url[..21] == "/dashboard/editorial?"
    ensures url == "/dashboard/editorial?" <==> SaveParams(f) == []
  {
    "/dashboard/editorial?" + QueryString(SaveParams(f), ParamName)
  }

  /** The settings page's form state. */
  class SettingsForm {
    var rotation: int
    var stripSpeed: int
    var cardDurationSec: int
    var activeNowSec: int
    var activeTodaySec: int
    var fullscreen: bool

    function Current(): Form
      reads this
    {
      Form(rotation, stripSpeed, cardDurationSec, activeNowSec, activeTodaySec, fullscreen)
    }

    constructor()
      ensures Current() == DefaultForm
    {
      rotation, stripSpeed, cardDurationSec := 60000, 100, 4;
      activeNowSec, activeTodaySec, fullscreen := 10, 60, false;
    }

    /** The effect run on each change of the search parameters. */
    method InitFromUrl(q: Query<SettingName>)
      modifies this
      ensures Current() == Init(old(Current()), q)
    {
      rotation := NumericParam(q, Rotation).GetOr(rotation);
      stripSpeed := NumericParam(q, StripSpeed).GetOr(stripSpeed);
      cardDurationSec := SecondsParam(q, CardDuration, MinCardSec, cardDurationSec);
      var f := Param(q, Fullscreen);
      if f.Some? { fullscreen := f.value == "1"; }
      activeTodaySec := SecondsParam(q, ActiveTodayInterval, MinTodaySec, activeTodaySec);
      activeNowSec := SecondsParam(q, ActiveNowInterval, MinNowSec, activeNowSec);
    }

    /** `handleRestoreDefaults`. */
    method RestoreDefaults()
      modifies this
      ensures Current() == DefaultForm
    {
      rotation := Defaults.rotation;
      stripSpeed := Defaults.stripspeed;
      cardDurationSec := Defaults.cardduration / 1000;
      activeTodaySec := Defaults.activeTodayIntervalms / 1000;
      activeNowSec := Defaults.activeNowIntervalms / 1000;
      fullscreen := Defaults.autoFullscreen;
    }

    /** `handleSave`: the URL it navigates to. */
    method Save() returns (url: string)
      ensures url == SaveUrl(Current())
    {
      var params: Query<SettingName> := [];
      params := SetWhen(params, rotation != Defaults.rotation, Rotation, IntToString(rotation));
      params := SetWhen(params, stripSpeed != Defaults.stripspeed, StripSpeed, IntToString(stripSpeed));
      var cardDurationMs := Max(cardDurationSec, MinCardSec) * 1000;
      params := SetWhen(params, cardDurationMs != Defaults.cardduration, CardDuration, IntToString(cardDurationMs));
      assert params == OmitFirstDefaults(Saved(Current()));
      var activeTodayMs := Max(activeTodaySec, MinTodaySec) * 1000;
      params := SetWhen(params, activeTodayMs != Defaults.activeTodayIntervalms,
                        ActiveTodayInterval, IntToString(activeTodayMs));
      var activeNowMs := Max(activeNowSec, MinNowSec) * 1000;
      params := SetWhen(params, activeNowMs != Defaults.activeNowIntervalms,
                        ActiveNowInterval, IntToString(activeNowMs));
      params := SetWhen(params, fullscreen != Defaults.autoFullscreen, Fullscreen, "1");
      url := "/dashboard/editorial?" + QueryString(params, ParamName);
    }
  }

  /** What initialisation does to each field. */
  lemma InitFields(f: Form, q: Query<SettingName>)
    ensures var r := Init(f, q);
            && (NumericParam(q, Rotation).Some? ==> r.rotation == NumericParam(q, Rotation).value)
            && (NumericParam(q, Rotation).None? ==> r.rotation == f.rotation)
            && (NumericParam(q, StripSpeed).Some? ==> r.stripSpeed == NumericParam(q, StripSpeed).value)
            && (NumericParam(q, StripSpeed).None? ==> r.stripSpeed == f.stripSpeed)
            && (NumericParam(q, CardDuration).Some? ==> r.cardDurationSec >= MinCardSec)
            && (NumericParam(q, ActiveTodayInterval).Some? ==> r.activeTodaySec >= MinTodaySec)
            && (NumericParam(q, ActiveNowInterval).Some? ==> r.activeNowSec >= MinNowSec)
            && (Param(q, Fullscreen).Some? ==> (r.fullscreen <==> Param(q, Fullscreen) == Some("1")))
            && (Param(q, Fullscreen).None? ==> r.fullscreen == f.fullscreen)
  {
  }

  /** Saving the defaults sets no parameter at all. */
  lemma RestoreThenSaveEmpty()
    ensures SaveParams(DefaultForm) == []
    ensures SaveUrl(DefaultForm) == "/dashboard/editorial?"
  {
  }

  /** Every parameter `handleSave` writes carries a value different from the
      default, and it writes exactly the six names the form knows. */
  lemma SaveOmitsDefaults(f: Form)
    ensures Param(SaveParams(f), Rotation).Some? <==> f.rotation != Defaults.rotation
    ensures Param(SaveParams(f), StripSpeed).Some? <==> f.stripSpeed != Defaults.stripspeed
    ensures Param(SaveParams(f), CardDuration).Some? <==> f.cardDurationSec != 4
    ensures Param(SaveParams(f), ActiveTodayInterval).Some? <==> f.activeTodaySec != 60
    ensures Param(SaveParams(f), ActiveNowInterval).Some? <==> f.activeNowSec != 10
    ensures Param(SaveParams(f), Fullscreen).Some? <==> f.fullscreen
  {
  }

  /** A whole number of seconds written as milliseconds reads back unchanged. */
  lemma SecondsBack(least: int, sec: int)
    requires sec >= least
    ensures Seconds(least, sec * 1000) == sec
  {
    var r := RoundDiv(sec * 1000, 1000);
    assert 2000 * r - 1000 <= 2000 * sec < 2000 * r + 1000;
  }

  /** A duration at or above its floor, written in milliseconds only when it
      differs from the default, reads back as the same number of seconds. */
  lemma SecondsParamBack(q: Query<SettingName>, name: SettingName, least: int, sec: int, dflt: int)
    requires sec >= least
    requires Param(q, name) == if sec * 1000 != dflt * 1000 then Some(IntToString(sec * 1000)) else None
    ensures SecondsParam(q, name, least, dflt) == sec
  {
    if sec * 1000 != dflt * 1000 {
      ParseIntToString(sec * 1000);
      SecondsBack(least, sec);
    }
  }

  /** Saving and then initialising the form afresh from the saved URL gives
      back the same form, when each duration is at or above its floor. */
  lemma SaveInitRoundTrip(f: Form)
    requires f.cardDurationSec >= MinCardSec && f.activeTodaySec >= MinTodaySec && f.activeNowSec >= MinNowSec
    ensures Init(DefaultForm, SaveParams(f)) == f
  {
    var q := SaveParams(f);
    assert CardMs(f) == f.cardDurationSec * 1000;
    assert TodayMs(f) == f.activeTodaySec * 1000;
    assert NowMs(f) == f.activeNowSec * 1000;
    NumericBack(q, Rotation, f.rotation, 60000);
    NumericBack(q, StripSpeed, f.stripSpeed, 100);
    SecondsParamBack(q, CardDuration, MinCardSec, f.cardDurationSec, 4);
    SecondsParamBack(q, ActiveTodayInterval, MinTodaySec, f.activeTodaySec, 60);
    SecondsParamBack(q, ActiveNowInterval, MinNowSec, f.activeNowSec, 10);
  }
}
