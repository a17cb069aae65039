/** `getAwards`: the whole aggregation. The brand configuration, the listings,
    the award pages, the `/awards` pages, URL resolution and `Date` come in as
    `Sources`; the concurrent fan-outs are sequential maps in the same order. */
module GetAwards {
  import opened Wrappers
  import opened JsText
  import opened JsObject
  import opened AwardData
  import opened AwardTitles
  import opened AwardTagging
  import opened AwardDedup
  import opened AwardImages
  import opened StableSort

  /** What the aggregation reads from outside: the configuration object (a
      failed fetch or parse throws out of `getAwards`), each brand's listing by
      site URL, each award page by `view_node`, each `/awards` page by site
      URL, `new URL(img, base).href`, and `Date`. */
  datatype Sources = Sources(
    config: Result<seq<(string, Site)>>,
    listing: string -> Listing,
    detail: string -> DetailPage,
    awardsPage: string -> AwardsPage,
    resolve: (string, string) -> Option<string>,
    env: DateEnv)

  /** `awardsWithDates.map(...)`: each award with its image. */
  function WithImages(s: seq<Award>, maps: seq<(string, seq<(string, string)>)>): (r: seq<Award>)
    ensures |r| == |s|
  {
    if s == [] then [] else WithImages(s[..|s| - 1], maps) + [WithImage(s[|s| - 1], maps)]
  }

  lemma {:induction false} WithImagesAt(s: seq<Award>, maps: seq<(string, seq<(string, string)>)>, k: nat)
    requires k < |s|
    ensures WithImages(s, maps)[k] == WithImage(s[k], maps)
    decreases |s|
  {
    if k < |s| - 1 {
      assert s[..|s| - 1][k] == s[k];
      WithImagesAt(s[..|s| - 1], maps, k);
    }
  }

  /** The brands' image maps, keyed by brand code. */
  function BrandMaps(brands: seq<Brand>, src: Sources): seq<(string, seq<(string, string)>)> {
    PutAll([], BrandMapEntries(brands, src.awardsPage, src.resolve))
  }

  /** The deduplicated awards, dated and given their images, before sorting. */
  function Enriched(u: seq<Award>, brands: seq<Brand>, src: Sources): (r: seq<Award>)
    ensures |r| == |u|
  {
    WithImages(DatedAll(u, src), BrandMaps(brands, src))
  }

  /** The nomination-date `map`: each award with its dates. */
  function DatedAll(u: seq<Award>, src: Sources): (r: seq<Award>)
    ensures |r| == |u|
    ensures forall i :: 0 <= i < |u| ==> r[i] == Dated(u[i], src.detail, src.env)
  {
    seq(|u|, i requires 0 <= i < |u| => Dated(u[i], src.detail, src.env))
  }

  /** The tagged records of a configuration. */
  function TaggedOf(config: seq<(string, Site)>, src: Sources): seq<Award> {
    var brands := AwardBrands(config);
    Tag(Collected(brands, src.listing), brands, NormalizedOwns())
  }

  /** What `getAwards` resolves to, or the error it throws. */
  function AwardsOf(src: Sources): (r: Result<seq<Award>>)
    ensures r.Failure? <==> src.config.Failure? || !AllDatesValid(TaggedOf(src.config.value, src), src.env)
    ensures src.config.Failure? ==> r == Failure(src.config.error)
    ensures src.config.Success? && r.Failure? ==> r.error == "RangeError: Invalid time value"
    ensures r.Success? ==> |r.value| <= |TaggedOf(src.config.value, src)|
  {
    match src.config
    case Failure(e) => Failure(e)
    case Success(config) =>
      var tagged := TaggedOf(config, src);
      if !AllDatesValid(tagged, src.env) then Failure("RangeError: Invalid time value")
      else Success(Sort(Enriched(Deduped(tagged, src.env), AwardBrands(config), src), ByDate(src.env)))
  }

  /** The image-matching `map`, one award at a time. */
  method MatchImages(s: seq<Award>, maps: seq<(string, seq<(string, string)>)>) returns (r: seq<Award>)
    ensures r == WithImages(s, maps)
  {
    r := [];
    var i := 0;
    while i < |s|
      invariant 0 <= i <= |s|
      invariant r == WithImages(s[..i], maps)
    {
      assert s[..i + 1][..i] == s[..i];
      var a := s[i];
      var brandMap := Get(maps, a.brand);
      if brandMap.None? {
        r := r + [a];
      } else {
        var image := FindImage(brandMap.value, NormalizeTitle(a.title));
        r := r + [a.(image := image)];
      }
      i := i + 1;
    }
    assert s[..|s|] == s;
  }

  /** Nomination dates, the brands' image maps and image matching. */
  method Enrich(u: seq<Award>, brands: seq<Brand>, src: Sources) returns (e: seq<Award>)
    ensures e == Enriched(u, brands, src)
  {
    var dated := DatedAll(u, src);
    var maps := BrandImageMaps(brands, src.awardsPage, src.resolve);
    e := MatchImages(dated, maps);
  }

  /** `getAwards`: brands, listings, tagging, deduplication, nomination dates,
      image maps, image matching and the in-place sort by date. */
  method GetAwardsRun(src: Sources) returns (r: Result<seq<Award>>)
    ensures r == AwardsOf(src)
  {
    if src.config.Failure? {
      return Failure(src.config.error);
    }
    var brands := AwardBrands(src.config.value);
    var raws := Collected(brands, src.listing);
    var tagged := Tag(raws, brands, NormalizedOwns());
    assert tagged == TaggedOf(src.config.value, src);
    var unique := Dedup(tagged, DedupKey(src.env));
    if unique.Failure? {
      assert !AllDatesValid(tagged, src.env);
      return Failure(unique.error);
    }
    var u := unique.value;
    assert u == Deduped(tagged, src.env);
    var withImages := Enrich(u, brands, src);
    var sorted := SortedCopy(withImages, ByDate(src.env));
    r := Success(sorted);
  }

  /** Every deduplicated record has a date that parses. */
  lemma DedupedDatesParse(s: seq<Award>, env: DateEnv)
    requires AllDatesValid(s, env)
    ensures forall k :: 0 <= k < |Deduped(s, env)| ==> Timestamp(Deduped(s, env)[k], env).Some?
  {
    var key := DedupKey(env);
    var fi := FirstIndices(s, |s|, key);
    var d := Deduped(s, env);
    forall k | 0 <= k < |d| ensures Timestamp(d[k], env).Some? {
      var i := fi[k];
      assert FirstOfKey(s, i, key);
      assert key(s[i]).Some?;
      assert d[k].fieldDate == s[i].fieldDate;
    }
  }

  /** Dating and image matching keep each award's date. */
  lemma EnrichedTimestamps(u: seq<Award>, brands: seq<Brand>, src: Sources)
    requires forall k :: 0 <= k < |u| ==> Timestamp(u[k], src.env).Some?
    ensures forall k :: 0 <= k < |u| ==> Timestamp(Enriched(u, brands, src)[k], src.env).Some?
  {
    var dated := DatedAll(u, src);
    forall k | 0 <= k < |u| ensures Timestamp(Enriched(u, brands, src)[k], src.env).Some? {
      WithImagesAt(dated, BrandMaps(brands, src), k);
      assert Enriched(u, brands, src)[k].fieldDate == u[k].fieldDate;
    }
  }

  /** The result is ordered by ascending `field_date` timestamp. */
  lemma AwardsSorted(src: Sources)
    requires AwardsOf(src).Success?
    ensures SortedBy(AwardsOf(src).value, TimeKey(src.env))
  {
    var config := src.config.value;
    var tagged := TaggedOf(config, src);
    var u := Deduped(tagged, src.env);
    var e := Enriched(u, AwardBrands(config), src);
    DedupedDatesParse(tagged, src.env);
    EnrichedTimestamps(u, AwardBrands(config), src);
    ByDateAgrees(e, src.env);
    SortSorted(e, ByDate(src.env), TimeKey(src.env));
  }

  /** The result holds exactly the enriched deduplicated awards, and awards
      with the same timestamp stay in order of first appearance. */
  lemma AwardsAreEnrichedDeduped(src: Sources, t: int)
    requires AwardsOf(src).Success?
    ensures var config := src.config.value;
            var e := Enriched(Deduped(TaggedOf(config, src), src.env), AwardBrands(config), src);
            multiset(AwardsOf(src).value) == multiset(e)
            && WithKey(AwardsOf(src).value, TimeKey(src.env), t) == WithKey(e, TimeKey(src.env), t)
  {
    var config := src.config.value;
    var tagged := TaggedOf(config, src);
    var u := Deduped(tagged, src.env);
    var e := Enriched(u, AwardBrands(config), src);
    DedupedDatesParse(tagged, src.env);
    EnrichedTimestamps(u, AwardBrands(config), src);
    ByDateAgrees(e, src.env);
    SortPermutes(e, ByDate(src.env));
    SortStable(e, ByDate(src.env), TimeKey(src.env), t);
  }

  /** An award whose brand has no loaded map (no brand has its code) keeps its image. */
  lemma UnloadedBrandUnchanged(a: Award, brands: seq<Brand>, src: Sources)
    requires forall i :: 0 <= i < |brands| ==> brands[i].code != a.brand
    ensures WithImage(a, BrandMaps(brands, src)) == a
  {
    BrandMapsGet(brands, src.awardsPage, src.resolve, a.brand);
  }
}
