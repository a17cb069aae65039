/** The brand dashboard's derived addresses: the four feed URLs, each an
    override from the site configuration or the site URL with one trailing
    slash removed plus a fixed suffix, and the four odometer endpoints. */
module BrandDashboard {
  import opened Wrappers
  import opened JsText

  /** The fields of a brand's site configuration that the dashboards read. */
  datatype SiteConfig = SiteConfig(
    url: Option<string>,
    name: Option<string>,
    image: Option<string>,
    exclusivesUrl: Option<string>,
    exclusiveFeed: Option<string>,
    videosFeed: Option<string>,
    articlesFeed: Option<string>)

  const NewsSuffix: string := "/news-feed.xml"
  const ExclusiveSuffix: string := "/exclusive-news-feed.xml"
  const VideosSuffix: string := "/latest-videos.xml"
  const ArticlesSuffix: string := "/top-read-feed.xml"

  /** The four feeds a dashboard reads. */
  datatype Feeds = Feeds(news: string, exclusive: string, videos: string, articles: string)

  /** `override ?? url.replace(/\/$/, "") + suffix`; `None` is the
      `TypeError` of reading `replace` off a missing `url`. */
  function FeedUrl(override: Option<string>, url: Option<string>, suffix: string): (r: Option<string>)
    ensures override.Some? ==> r == override
    ensures override.None? ==> (r.Some? <==> url.Some?)
    ensures override.None? && url.Some? ==>
              exists base :: r.value == base + suffix
                             && (base == url.value || base + "/" == url.value)
  {
    match override
    case Some(o) => Some(o)
    case None =>
      match url
      case None => None
      case Some(u) =>
        var base := StripTrailingSlash(u);
        assert base == u || base + "/" == u;
        Some(base + suffix)
  }

  /** The four feed URLs, or `None` when computing one of them throws. */
  function FeedsOf(cfg: SiteConfig): (r: Option<Feeds>)
    ensures r.Some? <==> cfg.url.Some? || (cfg.exclusivesUrl.Some? && cfg.exclusiveFeed.Some?
                                            && cfg.videosFeed.Some? && cfg.articlesFeed.Some?)
    ensures r.Some? ==> Some(r.value.news) == FeedUrl(cfg.exclusivesUrl, cfg.url, NewsSuffix)
                        && Some(r.value.exclusive) == FeedUrl(cfg.exclusiveFeed, cfg.url, ExclusiveSuffix)
                        && Some(r.value.videos) == FeedUrl(cfg.videosFeed, cfg.url, VideosSuffix)
                        && Some(r.value.articles) == FeedUrl(cfg.articlesFeed, cfg.url, ArticlesSuffix)
  {
    var news := FeedUrl(cfg.exclusivesUrl, cfg.url, NewsSuffix);
    var exclusive := FeedUrl(cfg.exclusiveFeed, cfg.url, ExclusiveSuffix);
    var videos := FeedUrl(cfg.videosFeed, cfg.url, VideosSuffix);
    var articles := FeedUrl(cfg.articlesFeed, cfg.url, ArticlesSuffix);
    if news.Some? && exclusive.Some? && videos.Some? && articles.Some? then
      Some(Feeds(news.value, exclusive.value, videos.value, articles.value))
    else None
  }

  /** A URL ending in one slash gets the same feed as the URL without it, and
      only that one slash goes: `"a//"` yields `"a/"` before the suffix. */
  lemma OneSlashStripped(u: string, suffix: string)
    ensures FeedUrl(None, Some(u + "/"), suffix) == Some(u + suffix)
    ensures FeedUrl(None, Some(u + "//"), suffix) == Some(u + "/" + suffix)
    ensures (u == [] || u[|u| - 1] != '/') ==>
              FeedUrl(None, Some(u + "/"), suffix) == FeedUrl(None, Some(u), suffix)
  {
    assert (u + "/")[..|u + "/"| - 1] == u;
    assert (u + "//")[..|u + "//"| - 1] == u + "/";
  }

  /** With no overrides, the four feeds share the stripped site URL and differ
      in their suffixes, in the order news, exclusive, videos, top-read. */
  lemma DerivedFeeds(cfg: SiteConfig)
    requires cfg.url.Some?
    requires cfg.exclusivesUrl.None? && cfg.exclusiveFeed.None? && cfg.videosFeed.None? && cfg.articlesFeed.None?
    ensures var base := StripTrailingSlash(cfg.url.value);
            FeedsOf(cfg) == Some(Feeds(base + NewsSuffix, base + ExclusiveSuffix,
                                       base + VideosSuffix, base + ArticlesSuffix))
  {
  }

  /** The odometer endpoint of one statistic for a brand. */
  function Endpoint(metric: string, brand: string): (e: string)
    ensures StartsWith(e, "/api/") && |e| > |brand|
    ensures e[|e| - |brand| - 1] == '/' && e[|e| - |brand| ..] == brand
  {
    "/api/" + metric + "/" + brand
  }

  /** The odometers' endpoints: last 365 days, last 30 days, today, now. */
  function Odometers(brand: string): (r: seq<string>)
    ensures |r| == 4
    ensures forall i :: 0 <= i < 4 ==> StartsWith(r[i], "/api/active-")
    ensures r == ["/api/active-365-days/" + brand, "/api/active-30-days/" + brand,
                  "/api/active-today/" + brand, "/api/active-now/" + brand]
  {
    EndpointStarts("active-365-days", brand);
    EndpointStarts("active-30-days", brand);
    EndpointStarts("active-today", brand);
    EndpointStarts("active-now", brand);
    assert "/api/" + "active-365-days" + "/" == "/api/active-365-days/";
    assert "/api/" + "active-30-days" + "/" == "/api/active-30-days/";
    assert "/api/" + "active-today" + "/" == "/api/active-today/";
    assert "/api/" + "active-now" + "/" == "/api/active-now/";
    [Endpoint("active-365-days", brand), Endpoint("active-30-days", brand),
     Endpoint("active-today", brand), Endpoint("active-now", brand)]
  }

  /** An `active-` statistic's endpoint starts with `/api/active-`. */
  lemma EndpointStarts(metric: string, brand: string)
    requires StartsWith(metric, "active-")
    ensures StartsWith(Endpoint(metric, brand), "/api/active-")
  {
    var e := Endpoint(metric, brand);
    assert e == "/api/" + (metric + "/" + brand);
    assert e[..12] == "/api/" + metric[..7];
  }

  /** Different brands read different endpoints for every statistic. */
  lemma OdometersInjective(b1: string, b2: string, i: nat)
    requires i < 4 && b1 != b2
    ensures Odometers(b1)[i] != Odometers(b2)[i]
  {
    var prefix := "/api/" + ["active-365-days", "active-30-days", "active-today", "active-now"][i] + "/";
    assert Odometers(b1)[i] == prefix + b1;
    assert Odometers(b2)[i] == prefix + b2;
    assert (prefix + b1)[|prefix|..] == b1;
    assert (prefix + b2)[|prefix|..] == b2;
  }
}
