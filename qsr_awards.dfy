/** The older awards aggregator: ownership by raw `view_node` prefix, no
    deduplication, images scraped by link `href` and merged across brands, and
    a final image that is always a string. */
module QsrAwards {
  import opened Wrappers
  import opened JsText
  import opened JsObject
  import opened AwardData
  import opened AwardTitles
  import opened AwardTagging
  import opened StableSort

  /** A `.view-content .item.with-border-bottom` tile: its title link's `href`
      and its image's `data-srcset` and `src`. */
  datatype LinkTile = LinkTile(href: Option<string>, dataSrcset: Option<string>, src: Option<string>)

  /** The `/awards` page of a site, or a failed fetch. */
  datatype LinkPage = LinkPage(tiles: seq<LinkTile>) | LinkPageFailed

  /** What this aggregator reads from outside (see `GetAwards.Sources`). */
  datatype QsrSources = QsrSources(
    config: Result<seq<(string, Site)>>,
    listing: string -> Listing,
    detail: string -> DetailPage,
    linkPage: string -> LinkPage,
    env: DateEnv)

  /** `img.attr("data-srcset")?.split(" ")[0] || img.attr("src")`. */
  function TileImage(t: LinkTile): (r: Option<string>)
    ensures t.dataSrcset.Some? && FirstToken(t.dataSrcset.value) != "" ==> r == Some(FirstToken(t.dataSrcset.value))
    ensures (t.dataSrcset.None? || FirstToken(t.dataSrcset.value) == "") ==> r == t.src
  {
    Or(if t.dataSrcset.Some? then Some(FirstToken(t.dataSrcset.value)) else None, t.src)
  }

  /** What one tile adds to the map: its trimmed `href` with its image, when both are present. */
  function LinkEntry(t: LinkTile): (e: Option<(string, string)>)
    ensures e.Some? <==> Truthy(t.href) && Truthy(TileImage(t))
    ensures e.Some? ==> e.value == (Trim(t.href.value), TileImage(t).value)
  {
    if Truthy(t.href) && Truthy(TileImage(t)) then Some((Trim(t.href.value), TileImage(t).value)) else None
  }

  function LinkEntryFn(): LinkTile -> Option<(string, string)> {
    (t: LinkTile) => LinkEntry(t)
  }

  /** The entries the tiles yield, in document order. */
  function Entries<T>(ts: seq<T>, entry: T -> Option<(string, string)>): (es: seq<(string, string)>)
    ensures |es| <= |ts|
  {
    if ts == [] then []
    else Entries(ts[..|ts| - 1], entry) + (match entry(ts[|ts| - 1]) case Some(p) => [p] case None => [])
  }

  lemma EntriesStep<T>(ts: seq<T>, entry: T -> Option<(string, string)>, i: nat)
    requires i < |ts|
    ensures Entries(ts[..i + 1], entry) == Entries(ts[..i], entry) + (match entry(ts[i]) case Some(p) => [p] case None => [])
  {
    assert ts[..i + 1][..i] == ts[..i];
  }

  /** Every entry comes from a tile that yields it, and every such tile gives one. */
  lemma {:induction false} EntriesFrom<T>(ts: seq<T>, entry: T -> Option<(string, string)>, p: (string, string))
    ensures p in Entries(ts, entry) <==> exists i :: 0 <= i < |ts| && entry(ts[i]) == Some(p)
  {
    if ts != [] {
      var init, last := ts[..|ts| - 1], ts[|ts| - 1];
      var tail := match entry(last) case Some(q) => [q] case None => [];
      assert Entries(ts, entry) == Entries(init, entry) + tail;
      assert p in tail <==> entry(last) == Some(p);
      EntriesFrom(init, entry, p);
      if p in Entries(init, entry) {
        var i :| 0 <= i < |init| && entry(init[i]) == Some(p);
        assert ts[i] == init[i];
      } else if p in tail {
        assert entry(ts[|ts| - 1]) == Some(p);
      } else {
        forall i | 0 <= i < |ts| ensures entry(ts[i]) != Some(p) {
          if i < |init| {
            assert ts[i] == init[i];
          }
        }
      }
    }
  }

  /** `fetchAwardImagesMap`: the entries assigned in order; a failed page gives `{}`. */
  function LinkMapOf(page: LinkPage): seq<(string, string)> {
    match page
    case LinkPageFailed => []
    case LinkPage(ts) => PutAll([], Entries(ts, LinkEntryFn()))
  }

  /** The `.each` loop that fills the map. */
  method FetchLinkImagesMap(page: LinkPage) returns (m: seq<(string, string)>)
    ensures m == LinkMapOf(page)
  {
    if page.LinkPageFailed? {
      return [];
    }
    var ts := page.tiles;
    m := [];
    var i := 0;
    while i < |ts|
      invariant 0 <= i <= |ts|
      invariant m == PutAll([], Entries(ts[..i], LinkEntryFn()))
    {
      var t := ts[i];
      var img := if t.dataSrcset.Some? then Some(FirstToken(t.dataSrcset.value)) else None;
      if !Truthy(img) {
        img := t.src;
      }
      assert img == TileImage(t);
      LinkMapStep(ts, i, m);
      if Truthy(t.href) && Truthy(img) {
        m := Put(m, Trim(t.href.value), img.value);
      }
      i := i + 1;
    }
    assert ts[..|ts|] == ts;
  }

  /** One tile of the loop: its entry, if any, assigned into the map so far. */
  lemma LinkMapStep(ts: seq<LinkTile>, i: nat, m: seq<(string, string)>)
    requires i < |ts| && m == PutAll([], Entries(ts[..i], LinkEntryFn()))
    ensures var e := LinkEntry(ts[i]);
            PutAll([], Entries(ts[..i + 1], LinkEntryFn())) == if e.Some? then Put(m, e.value.0, e.value.1) else m
  {
    var es := Entries(ts[..i], LinkEntryFn());
    EntriesStep(ts, LinkEntryFn(), i);
    assert LinkEntryFn()(ts[i]) == LinkEntry(ts[i]);
    match LinkEntry(ts[i])
    case Some(p) =>
      assert (es + [p])[..|es|] == es;
    case None =>
      assert es + [] == es;
  }

  /** A link map holds, for each trimmed `href`, the image of its last tile. */
  lemma LinkMapLastWins(ts: seq<LinkTile>, k: string)
    ensures Get(LinkMapOf(LinkPage(ts)), k) == LastValue(Entries(ts, LinkEntryFn()), k)
    ensures UniqueKeys(LinkMapOf(LinkPage(ts)))
  {
    PutAllGet([], Entries(ts, LinkEntryFn()), k);
    PutAllUnique([], Entries(ts, LinkEntryFn()));
  }

  /** A link map has a key only for a tile with that trimmed `href` and an image. */
  lemma LinkMapKeys(ts: seq<LinkTile>, k: string, v: string)
    requires Get(LinkMapOf(LinkPage(ts)), k) == Some(v)
    ensures exists i :: 0 <= i < |ts| && Truthy(ts[i].href) && Trim(ts[i].href.value) == k
                        && Truthy(TileImage(ts[i])) && TileImage(ts[i]).value == v
  {
    var es := Entries(ts, LinkEntryFn());
    PutAllGet([], es, k);
    LastValueIsLast(es, k);
    var j :| 0 <= j < |es| && es[j] == (k, v);
    EntriesFrom(ts, LinkEntryFn(), (k, v));
    var i :| 0 <= i < |ts| && LinkEntryFn()(ts[i]) == Some((k, v));
    assert LinkEntry(ts[i]) == Some((k, v));
  }

  /** `Object.assign({}, ...imageMaps)`: the maps assigned one after the other. */
  function Merged(maps: seq<seq<(string, string)>>): (r: seq<(string, string)>)
    requires forall i :: 0 <= i < |maps| ==> UniqueKeys(maps[i])
  {
    if maps == [] then [] else Assign(Merged(maps[..|maps| - 1]), maps[|maps| - 1])
  }

  /** The value for `k` in the last map that has `k`. */
  function LastMapValue(maps: seq<seq<(string, string)>>, k: string): (r: Option<string>)
    ensures r.None? <==> forall i :: 0 <= i < |maps| ==> Get(maps[i], k).None?
  {
    if maps == [] then None
    else if Get(maps[|maps| - 1], k).Some? then Get(maps[|maps| - 1], k)
    else LastMapValue(maps[..|maps| - 1], k)
  }

  /** Later brands win: after merging, a key holds its value in the last map that has it. */
  lemma {:induction false} MergedGet(maps: seq<seq<(string, string)>>, k: string)
    requires forall i :: 0 <= i < |maps| ==> UniqueKeys(maps[i])
    ensures Get(Merged(maps), k) == LastMapValue(maps, k)
  {
    if maps != [] {
      MergedGet(maps[..|maps| - 1], k);
    }
  }

  /** The merge loop over the brands' maps. */
  method MergeMaps(maps: seq<seq<(string, string)>>) returns (all: seq<(string, string)>)
    requires forall i :: 0 <= i < |maps| ==> UniqueKeys(maps[i])
    ensures all == Merged(maps)
  {
    all := [];
    var i := 0;
    while i < |maps|
      invariant 0 <= i <= |maps|
      invariant all == Merged(maps[..i])
    {
      assert maps[..i + 1][..i] == maps[..i];
      all := Assign(all, maps[i]);
      i := i + 1;
    }
    assert maps[..|maps|] == maps;
  }

  /** The brands' link maps, in brand order. */
  function BrandLinkMaps(brands: seq<Brand>, linkPage: string -> LinkPage): (ms: seq<seq<(string, string)>>)
    ensures |ms| == |brands|
    ensures forall i :: 0 <= i < |ms| ==> UniqueKeys(ms[i])
  {
    var ms := seq(|brands|, i requires 0 <= i < |brands| => LinkMapOf(linkPage(brands[i].url)));
    assert forall i :: 0 <= i < |ms| ==> UniqueKeys(ms[i]) by {
      forall i | 0 <= i < |ms| ensures UniqueKeys(ms[i]) {
        var page := linkPage(brands[i].url);
        if page.LinkPage? {
          PutAllUnique([], Entries(page.tiles, LinkEntryFn()));
        }
      }
    }
    ms
  }

  /** `allImagesMap[a.view_node] || a.brandImage || ""`; a missing `view_node`
      looks up the key "undefined". */
  function FinalImage(a: Award, all: seq<(string, string)>): (r: Award)
    ensures r.(image := a.image) == a
    ensures r.image.Some?
    ensures var page := Get(all, a.viewNode.GetOr("undefined"));
            r.image == if Truthy(page) then page else if Truthy(a.brandImage) then a.brandImage else Some("")
  {
    a.(image := Or(Or(Get(all, a.viewNode.GetOr("undefined")), a.brandImage), Some("")))
  }

  function FinalImageFn(all: seq<(string, string)>): Award -> Award {
    (a: Award) => FinalImage(a, all)
  }

  /** The tagged records of a configuration. */
  function QsrTagged(config: seq<(string, Site)>, src: QsrSources): seq<Award> {
    var brands := AwardBrands(config);
    Tag(Collected(brands, src.listing), brands, RawOwns())
  }

  /** What this `getAwards` resolves to, or the error it throws. */
  function QsrAwardsOf(src: QsrSources): (r: Result<seq<Award>>)
    ensures r.Failure? <==> src.config.Failure?
    ensures src.config.Failure? ==> r == Failure(src.config.error)
    ensures r.Success? ==> |r.value| == |QsrTagged(src.config.value, src)|
    ensures r.Success? ==> forall k :: 0 <= k < |r.value| ==> r.value[k].image.Some?
  {
    match src.config
    case Failure(e) => Failure(e)
    case Success(config) =>
      var tagged := QsrTagged(config, src);
      var dated := seq(|tagged|, i requires 0 <= i < |tagged| => Dated(tagged[i], src.detail, src.env));
      var all := Merged(BrandLinkMaps(AwardBrands(config), src.linkPage));
      Success(Map(Sort(dated, ByDate(src.env)), FinalImageFn(all)))
  }

  /** `getAwards`: brands, listings, tagging, dates, merged link maps, the
      in-place sort by date, then the final image of each award. */
  method QsrGetAwardsRun(src: QsrSources) returns (r: Result<seq<Award>>)
    ensures r == QsrAwardsOf(src)
  {
    if src.config.Failure? {
      return Failure(src.config.error);
    }
    var brands := AwardBrands(src.config.value);
    var tagged := Tag(Collected(brands, src.listing), brands, RawOwns());
    assert tagged == QsrTagged(src.config.value, src);
    var dated := seq(|tagged|, i requires 0 <= i < |tagged| => Dated(tagged[i], src.detail, src.env));
    var maps := FetchBrandLinkMaps(brands, src.linkPage);
    var all := MergeMaps(maps);
    var sorted := SortedCopy(dated, ByDate(src.env));
    r := Success(Map(sorted, FinalImageFn(all)));
  }

  /** The brands' `fetchAwardImagesMap` calls, in brand order. */
  method FetchBrandLinkMaps(brands: seq<Brand>, linkPage: string -> LinkPage) returns (maps: seq<seq<(string, string)>>)
    ensures maps == BrandLinkMaps(brands, linkPage)
  {
    ghost var linkMaps := BrandLinkMaps(brands, linkPage);
    maps := [];
    var i := 0;
    while i < |brands|
      invariant 0 <= i <= |brands|
      invariant maps == linkMaps[..i]
    {
      var m := FetchLinkImagesMap(linkPage(brands[i].url));
      assert linkMaps[..i + 1] == linkMaps[..i] + [m];
      maps := maps + [m];
      i := i + 1;
    }
    assert maps == linkMaps;
  }

  /** The final image never changes an award's date, so the comparator cannot see it. */
  lemma FinalImageKeepsOrder(all: seq<(string, string)>, env: DateEnv)
    ensures forall a, b :: ByDate(env)(FinalImageFn(all)(a), FinalImageFn(all)(b)) == ByDate(env)(a, b)
  {
    forall a, b ensures ByDate(env)(FinalImageFn(all)(a), FinalImageFn(all)(b)) == ByDate(env)(a, b) {
      assert FinalImage(a, all).fieldDate == a.fieldDate;
      assert FinalImage(b, all).fieldDate == b.fieldDate;
    }
  }

  /** No deduplication and no filter: the output is exactly the collected
      records, dated and given their final image, each once, in date order. */
  lemma QsrKeepsEveryRecord(src: QsrSources)
    requires src.config.Success?
    ensures var tagged := QsrTagged(src.config.value, src);
            var dated := seq(|tagged|, i requires 0 <= i < |tagged| => Dated(tagged[i], src.detail, src.env));
            var all := Merged(BrandLinkMaps(AwardBrands(src.config.value), src.linkPage));
            QsrAwardsOf(src).Success?
            && |QsrAwardsOf(src).value| == |Collected(AwardBrands(src.config.value), src.listing)|
            && multiset(QsrAwardsOf(src).value) == multiset(Map(dated, FinalImageFn(all)))
  {
    var tagged := QsrTagged(src.config.value, src);
    var dated := seq(|tagged|, i requires 0 <= i < |tagged| => Dated(tagged[i], src.detail, src.env));
    var all := Merged(BrandLinkMaps(AwardBrands(src.config.value), src.linkPage));
    FinalImageKeepsOrder(all, src.env);
    SortMap(dated, ByDate(src.env), FinalImageFn(all));
    SortPermutes(Map(dated, FinalImageFn(all)), ByDate(src.env));
  }

  /** When every date parses, the output is in ascending date order. */
  lemma QsrSorted(src: QsrSources)
    requires src.config.Success?
    requires forall i :: 0 <= i < |QsrTagged(src.config.value, src)| ==>
               Timestamp(QsrTagged(src.config.value, src)[i], src.env).Some?
    ensures SortedBy(QsrAwardsOf(src).value, TimeKey(src.env))
  {
    var tagged := QsrTagged(src.config.value, src);
    var dated := seq(|tagged|, i requires 0 <= i < |tagged| => Dated(tagged[i], src.detail, src.env));
    var all := Merged(BrandLinkMaps(AwardBrands(src.config.value), src.linkPage));
    var mapped := Map(dated, FinalImageFn(all));
    assert forall i :: 0 <= i < |mapped| ==> mapped[i].fieldDate == tagged[i].fieldDate;
    ByDateAgrees(mapped, src.env);
    FinalImageKeepsOrder(all, src.env);
    SortMap(dated, ByDate(src.env), FinalImageFn(all));
    SortSorted(mapped, ByDate(src.env), TimeKey(src.env));
  }
}
