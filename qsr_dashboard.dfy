/** The QSR dashboard's feed URLs: `safeReplace` never throws, so a missing
    site URL leaves each feed as its bare suffix. */
module QsrDashboard {
  import opened Wrappers
  import opened JsText
  import opened BrandDashboard

  /** `safeReplace`: `""` for a missing or empty URL, else the URL with one
      trailing slash removed. */
  function SafeReplace(url: Option<string>): (r: string)
    ensures !Truthy(url) ==> r == ""
    ensures Truthy(url) ==> r == url.value || r + "/" == url.value
  {
    if Truthy(url) then StripTrailingSlash(url.value) else ""
  }

  /** `siteConfig?.<override> ?? safeReplace(siteConfig?.url) + suffix`; an
      empty-string override is kept, since `??` only skips null and undefined. */
  function QsrFeedUrl(override: Option<string>, url: Option<string>, suffix: string): (r: string)
    ensures override.Some? ==> r == override.value
    ensures override.None? && !Truthy(url) ==> r == suffix
    ensures override.None? && Truthy(url) ==> FeedUrl(None, url, suffix) == Some(r)
  {
    if override.Some? then override.value else SafeReplace(url) + suffix
  }

  /** The news, exclusive and videos feeds (the QSR view has no top-read feed). */
  datatype QsrFeeds = QsrFeeds(news: string, exclusive: string, videos: string)

  /** The three feeds, where a missing configuration reads as all fields absent. */
  function QsrFeedsOf(cfg: Option<SiteConfig>): (r: QsrFeeds)
    ensures cfg.None? ==> r == QsrFeeds(NewsSuffix, ExclusiveSuffix, VideosSuffix)
    ensures cfg.Some? ==> r.news == QsrFeedUrl(cfg.value.exclusivesUrl, cfg.value.url, NewsSuffix)
                          && r.exclusive == QsrFeedUrl(cfg.value.exclusiveFeed, cfg.value.url, ExclusiveSuffix)
                          && r.videos == QsrFeedUrl(cfg.value.videosFeed, cfg.value.url, VideosSuffix)
  {
    match cfg
    case None => QsrFeeds(QsrFeedUrl(None, None, NewsSuffix), QsrFeedUrl(None, None, ExclusiveSuffix),
                          QsrFeedUrl(None, None, VideosSuffix))
    case Some(c) => QsrFeeds(QsrFeedUrl(c.exclusivesUrl, c.url, NewsSuffix),
                             QsrFeedUrl(c.exclusiveFeed, c.url, ExclusiveSuffix),
                             QsrFeedUrl(c.videosFeed, c.url, VideosSuffix))
  }

  /** The video rotator is hidden exactly when the videos feed URL is empty,
      which happens only for an explicit empty override. */
  predicate ShowsVideoRotator(cfg: Option<SiteConfig>) {
    QsrFeedsOf(cfg).videos != ""
  }

  /** Wherever the brand dashboard computes its feeds, the QSR dashboard
      computes the same first three; where the brand dashboard throws, the QSR
      dashboard falls back to the bare suffixes. */
  lemma AgreesWithBrandDashboard(c: SiteConfig)
    requires c.url.Some? && c.url.value != ""
    ensures var f := FeedsOf(c).value; var q := QsrFeedsOf(Some(c));
            FeedsOf(c).Some? && q == QsrFeeds(f.news, f.exclusive, f.videos)
  {
  }

  /** The rotator shows unless the videos override is the empty string. */
  lemma RotatorHiddenIffEmptyOverride(cfg: Option<SiteConfig>)
    ensures !ShowsVideoRotator(cfg) <==> cfg.Some? && cfg.value.videosFeed == Some("")
  {
    if cfg.Some? && cfg.value.videosFeed.None? {
      var v := SafeReplace(cfg.value.url) + VideosSuffix;
      assert |v| >= |VideosSuffix|;
    }
  }
}
