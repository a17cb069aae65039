/** The title-to-image map scraped from a brand's `/awards` page, the map of
    those maps per brand, and the search of a map for an award's title. The
    page itself is an input: the tiles of its two layouts, in document order,
    reduced to the attributes the scraper reads. */
module AwardImages {
  import opened Wrappers
  import opened JsText
  import opened JsObject
  import opened AwardData
  import opened AwardTitles
  import StableSort

  /** The attributes of a tile's `img` element (all `None` without one). */
  datatype ImgAttrs = ImgAttrs(dataSrcset: Option<string>, srcset: Option<string>,
                               dataSrc: Option<string>, src: Option<string>)

  /** A `.view-content .item.with-border-bottom` tile: the text of its
      `.item__title a` (`""` without one) and its image. */
  datatype StandardTile = StandardTile(titleText: string, img: ImgAttrs)

  /** An `.elementor-widget-image` tile: its link's `title` attribute and text,
      and its image. */
  datatype ElementorTile = ElementorTile(linkTitle: Option<string>, linkText: string, img: ImgAttrs)

  /** The `/awards` page of a site, or a failed fetch. */
  datatype AwardsPage = Page(standard: seq<StandardTile>, elementor: seq<ElementorTile>) | PageFailed

  /** `a || b || ...`: the first truthy candidate, or the last candidate when none is. */
  function FirstTruthy(cs: seq<Option<string>>): (r: Option<string>)
    requires |cs| >= 1
    ensures Truthy(r) <==> exists i :: 0 <= i < |cs| && Truthy(cs[i])
    ensures forall i :: 0 <= i < |cs| && Truthy(cs[i]) && (forall j :: 0 <= j < i ==> !Truthy(cs[j])) ==> r == cs[i]
    ensures !Truthy(r) ==> r == cs[|cs| - 1]
  {
    if |cs| == 1 || Truthy(cs[0]) then cs[0] else FirstTruthy(cs[1..])
  }

  /** A standard tile prefers `data-srcset`, then `srcset`, then `data-src`, then `src`. */
  function StandardImage(img: ImgAttrs): (r: Option<string>)
    ensures r == FirstTruthy([BestSrc(img.dataSrcset), BestSrc(img.srcset), img.dataSrc, img.src])
  {
    var cs := [BestSrc(img.dataSrcset), BestSrc(img.srcset), img.dataSrc, img.src];
    assert cs[1..] == [cs[1], cs[2], cs[3]] && cs[1..][1..] == [cs[2], cs[3]] && cs[1..][1..][1..] == [cs[3]];
    Or(Or(Or(BestSrc(img.dataSrcset), BestSrc(img.srcset)), img.dataSrc), img.src)
  }

  /** An elementor tile prefers `srcset`, then `data-src`, then `src`. */
  function ElementorImage(img: ImgAttrs): (r: Option<string>)
    ensures r == FirstTruthy([BestSrc(img.srcset), img.dataSrc, img.src])
  {
    var cs := [BestSrc(img.srcset), img.dataSrc, img.src];
    assert cs[1..] == [cs[1], cs[2]] && cs[1..][1..] == [cs[2]];
    Or(Or(BestSrc(img.srcset), img.dataSrc), img.src)
  }

  /** What one tile adds to the map: nothing without a title or an image, else
      the normalised title with the image, a relative image being resolved
      against the site URL by `resolve` (`new URL(img, site).href`, `None` when
      it throws, which fails the whole page). */
  function TileEntry(title: Option<string>, img: Option<string>, site: string,
                     resolve: (string, string) -> Option<string>): (r: Result<Option<(string, string)>>)
    ensures !Truthy(title) || !Truthy(img) ==> r == Success(None)
    ensures r.Failure? <==> Truthy(title) && Truthy(img) && !StartsWith(img.value, "http")
                            && resolve(img.value, site).None?
    ensures r.Success? && r.value.Some? ==>
              r.value.value.0 == NormalizeTitle(title) && r.value.value.1 != ""
              && r.value.value.1 == (if StartsWith(img.value, "http") then img.value
                                     else resolve(img.value, site).value)
  {
    if !Truthy(title) || !Truthy(img) then Success(None)
    else if StartsWith(img.value, "http") then Success(Some((NormalizeTitle(title), img.value)))
    else match resolve(img.value, site)
      case None => Failure("TypeError: Invalid URL")
      case Some(u) => if u != "" then Success(Some((NormalizeTitle(title), u))) else Success(None)
  }

  /** A standard tile's entry; its title is the trimmed link text. */
  function StandardEntry(t: StandardTile, site: string, resolve: (string, string) -> Option<string>): Result<Option<(string, string)>> {
    TileEntry(Some(Trim(t.titleText)), StandardImage(t.img), site, resolve)
  }

  /** An elementor tile's entry; its title is the link's `title` attribute, else its text. */
  function ElementorEntry(t: ElementorTile, site: string, resolve: (string, string) -> Option<string>): Result<Option<(string, string)>> {
    TileEntry(Or(t.linkTitle, Some(t.linkText)), ElementorImage(t.img), site, resolve)
  }

  /** The entries of a run of tiles, in order; the first failure fails them all. */
  function Collect(rs: seq<Result<Option<(string, string)>>>): (r: Result<seq<(string, string)>>)
  {
    if rs == [] then Success([])
    else match Collect(rs[..|rs| - 1])
      case Failure(e) => Failure(e)
      case Success(es) =>
        match rs[|rs| - 1]
        case Failure(e) => Failure(e)
        case Success(None) => Success(es)
        case Success(Some(p)) => Success(es + [p])
  }

  /** A run of tiles fails exactly when one of its tiles fails. */
  lemma {:induction false} CollectFails(rs: seq<Result<Option<(string, string)>>>)
    ensures Collect(rs).Failure? <==> exists i :: 0 <= i < |rs| && rs[i].Failure?
  {
    if rs != [] {
      var init := rs[..|rs| - 1];
      CollectFails(init);
      if exists i :: 0 <= i < |init| && init[i].Failure? {
        var i :| 0 <= i < |init| && init[i].Failure?;
        assert rs[i] == init[i];
      }
      if i :| 0 <= i < |rs| && rs[i].Failure? {
        if i < |rs| - 1 { assert init[i] == rs[i]; }
      }
    }
  }

  /** Every collected entry comes from a tile that yields it, and vice versa. */
  lemma {:induction false} CollectEntries(rs: seq<Result<Option<(string, string)>>>, p: (string, string))
    requires Collect(rs).Success?
    ensures p in Collect(rs).value <==> exists i :: 0 <= i < |rs| && rs[i] == Success(Some(p))
  {
    if rs != [] {
      var init := rs[..|rs| - 1];
      CollectEntries(init, p);
      if exists i :: 0 <= i < |init| && init[i] == Success(Some(p)) {
        var i :| 0 <= i < |init| && init[i] == Success(Some(p));
        assert rs[i] == init[i];
      }
      if i :| 0 <= i < |rs| && rs[i] == Success(Some(p)) {
        if i < |rs| - 1 { assert init[i] == rs[i]; }
      }
    }
  }

  /** The entry function of each layout, for one site. */
  function StandardEntryFn(site: string, resolve: (string, string) -> Option<string>): StandardTile -> Result<Option<(string, string)>> {
    (t: StandardTile) => StandardEntry(t, site, resolve)
  }

  function ElementorEntryFn(site: string, resolve: (string, string) -> Option<string>): ElementorTile -> Result<Option<(string, string)>> {
    (t: ElementorTile) => ElementorEntry(t, site, resolve)
  }

  /** `fetchAwardImagesMap`: the standard entries then the elementor entries
      assigned in order into an empty object; any failure gives `{}`. */
  function ImageMapOf(page: AwardsPage, site: string, resolve: (string, string) -> Option<string>): (m: seq<(string, string)>)
    ensures page.PageFailed? ==> m == []
    ensures UniqueKeys(m)
  {
    match page
    case PageFailed => []
    case Page(std, el) =>
      match (Collect(StableSort.Map(std, StandardEntryFn(site, resolve))), Collect(StableSort.Map(el, ElementorEntryFn(site, resolve))))
      case (Success(a), Success(b)) => PutAllUnique([], a + b); PutAll([], a + b)
      case _ => []
  }

  lemma CollectStep(rs: seq<Result<Option<(string, string)>>>, i: nat)
    requires i < |rs|
    ensures Collect(rs[..i + 1]) == match Collect(rs[..i])
                                    case Failure(e) => Failure(e)
                                    case Success(es) =>
                                      match rs[i]
                                      case Failure(e) => Failure(e)
                                      case Success(None) => Success(es)
                                      case Success(Some(p)) => Success(es + [p])
  {
    assert rs[..i + 1][..i] == rs[..i];
  }

  /** A prefix that fails makes the whole run fail. */
  lemma PrefixFails(rs: seq<Result<Option<(string, string)>>>, i: nat)
    requires i <= |rs| && Collect(rs[..i]).Failure?
    ensures Collect(rs).Failure?
  {
    CollectFails(rs[..i]);
    var j :| 0 <= j < i && rs[..i][j].Failure?;
    assert rs[j].Failure?;
    CollectFails(rs);
  }

  /** Assigning `a + b` is assigning `a`, then `b`. */
  lemma {:induction false} PutAllAppend<V>(m: seq<(string, V)>, a: seq<(string, V)>, b: seq<(string, V)>)
    ensures PutAll(m, a + b) == PutAll(PutAll(m, a), b)
    decreases |b|
  {
    if b == [] {
      assert a + b == a;
    } else {
      assert (a + b)[..|a + b| - 1] == a + b[..|b| - 1];
      PutAllAppend(m, a, b[..|b| - 1]);
    }
  }

  /** One `.each` loop over the tiles of a layout: each tile with a title and
      an image assigns its entry into `m`; a tile that throws aborts the loop. */
  method AssignTiles<T>(m0: seq<(string, string)>, ts: seq<T>, entry: T -> Result<Option<(string, string)>>)
    returns (r: Result<seq<(string, string)>>)
    ensures r.Failure? <==> Collect(StableSort.Map(ts, entry)).Failure?
    ensures r.Success? ==> r.value == PutAll(m0, Collect(StableSort.Map(ts, entry)).value)
  {
    ghost var rs := StableSort.Map(ts, entry);
    var m := m0;
    ghost var es: seq<(string, string)> := [];
    var i := 0;
    while i < |ts|
      invariant 0 <= i <= |ts|
      invariant Collect(rs[..i]) == Success(es)
      invariant m == PutAll(m0, es)
    {
      CollectStep(rs, i);
      var e := entry(ts[i]);
      assert rs[i] == e;
      if e.Failure? {
        PrefixFails(rs, i + 1);
        return Failure(e.error);
      }
      if e.value.Some? {
        PutAllSnoc(m0, es, e.value.value);
        m := Put(m, e.value.value.0, e.value.value.1);
        es := es + [e.value.value];
      }
      i := i + 1;
    }
    assert rs[..|ts|] == rs;
    r := Success(m);
  }

  /** The scraping of one `/awards` page: the standard tiles, then the
      elementor tiles, into an empty object; any failure gives `{}`. */
  method FetchAwardImagesMap(page: AwardsPage, site: string, resolve: (string, string) -> Option<string>)
    returns (m: seq<(string, string)>)
    ensures m == ImageMapOf(page, site, resolve)
  {
    if page.PageFailed? {
      return [];
    }
    var r1 := AssignTiles([], page.standard, StandardEntryFn(site, resolve));
    if r1.Failure? {
      return [];
    }
    var r2 := AssignTiles(r1.value, page.elementor, ElementorEntryFn(site, resolve));
    if r2.Failure? {
      return [];
    }
    PutAllAppend([], Collect(StableSort.Map(page.standard, StandardEntryFn(site, resolve))).value,
                 Collect(StableSort.Map(page.elementor, ElementorEntryFn(site, resolve))).value);
    m := r2.value;
  }

  /** Last write wins, elementor tiles after standard ones: a title holds the
      image of its last elementor tile if it has one, else of its last standard tile. */
  lemma ImageMapLastWins(std: seq<StandardTile>, el: seq<ElementorTile>, site: string,
                         resolve: (string, string) -> Option<string>, k: string)
    requires Collect(StableSort.Map(std, StandardEntryFn(site, resolve))).Success?
    requires Collect(StableSort.Map(el, ElementorEntryFn(site, resolve))).Success?
    ensures Get(ImageMapOf(Page(std, el), site, resolve), k) ==
            var a := Collect(StableSort.Map(std, StandardEntryFn(site, resolve))).value;
            var b := Collect(StableSort.Map(el, ElementorEntryFn(site, resolve))).value;
            if LastValue(b, k).Some? then LastValue(b, k) else LastValue(a, k)
  {
    var a := Collect(StableSort.Map(std, StandardEntryFn(site, resolve))).value;
    var b := Collect(StableSort.Map(el, ElementorEntryFn(site, resolve))).value;
    PutAllGet([], a + b, k);
    LastValueAppend(a, b, k);
  }

  /** One tile whose relative image cannot be resolved empties the whole map. */
  lemma ImageMapFailure(std: seq<StandardTile>, el: seq<ElementorTile>, site: string,
                        resolve: (string, string) -> Option<string>, i: nat)
    requires i < |std| && StandardEntry(std[i], site, resolve).Failure?
    ensures ImageMapOf(Page(std, el), site, resolve) == []
  {
    var srs := StableSort.Map(std, StandardEntryFn(site, resolve));
    assert srs[i] == StandardEntry(std[i], site, resolve);
    CollectFails(srs);
  }

  /** An entry collected from standard tiles is the entry of one of them. */
  lemma StandardSource(std: seq<StandardTile>, site: string, resolve: (string, string) -> Option<string>, p: (string, string))
    requires Collect(StableSort.Map(std, StandardEntryFn(site, resolve))).Success?
    requires p in Collect(StableSort.Map(std, StandardEntryFn(site, resolve))).value
    ensures exists i :: 0 <= i < |std| && StandardEntry(std[i], site, resolve) == Success(Some(p))
  {
    var rs := StableSort.Map(std, StandardEntryFn(site, resolve));
    CollectEntries(rs, p);
    var j :| 0 <= j < |rs| && rs[j] == Success(Some(p));
    assert StandardEntry(std[j], site, resolve) == rs[j];
  }

  /** An entry collected from elementor tiles is the entry of one of them. */
  lemma ElementorSource(el: seq<ElementorTile>, site: string, resolve: (string, string) -> Option<string>, p: (string, string))
    requires Collect(StableSort.Map(el, ElementorEntryFn(site, resolve))).Success?
    requires p in Collect(StableSort.Map(el, ElementorEntryFn(site, resolve))).value
    ensures exists i :: 0 <= i < |el| && ElementorEntry(el[i], site, resolve) == Success(Some(p))
  {
    var rs := StableSort.Map(el, ElementorEntryFn(site, resolve));
    CollectEntries(rs, p);
    var j :| 0 <= j < |rs| && rs[j] == Success(Some(p));
    assert ElementorEntry(el[j], site, resolve) == rs[j];
  }

  /** A value held after assigning `a + b` is the value of an entry of `a` or of `b`. */
  lemma EntryInParts(a: seq<(string, string)>, b: seq<(string, string)>, k: string, v: string)
    requires Get(PutAll([], a + b), k) == Some(v)
    ensures (k, v) in a || (k, v) in b
  {
    PutAllGet([], a + b, k);
    LastValueIsLast(a + b, k);
    var i :| 0 <= i < |a + b| && (a + b)[i] == (k, v);
    if i >= |a| {
      assert b[i - |a|] == (a + b)[i];
    }
  }

  /** Every entry of a scraped map comes from a tile with that normalised title. */
  lemma ImageMapEntrySource(page: AwardsPage, site: string, resolve: (string, string) -> Option<string>,
                            k: string, v: string)
    requires Get(ImageMapOf(page, site, resolve), k) == Some(v)
    ensures page.Page?
    ensures (exists i :: 0 <= i < |page.standard| && StandardEntry(page.standard[i], site, resolve) == Success(Some((k, v))))
         || (exists i :: 0 <= i < |page.elementor| && ElementorEntry(page.elementor[i], site, resolve) == Success(Some((k, v))))
  {
    var a := Collect(StableSort.Map(page.standard, StandardEntryFn(site, resolve))).value;
    var b := Collect(StableSort.Map(page.elementor, ElementorEntryFn(site, resolve))).value;
    EntryInParts(a, b, k, v);
    if (k, v) in a {
      StandardSource(page.standard, site, resolve, (k, v));
    } else {
      ElementorSource(page.elementor, site, resolve, (k, v));
    }
  }


  /** Either normalised title contains the other. */
  predicate Overlaps(scraped: string, award: string) {
    Contains(scraped, award) || Contains(award, scraped)
  }

  /** The image of the first entry, in insertion order, whose title overlaps the award's. */
  function FirstOverlap(m: seq<(string, string)>, t: string): (r: Option<string>)
    ensures r.Some? ==> exists i :: 0 <= i < |m| && m[i].1 == r.value && Overlaps(m[i].0, t)
                                    && forall j :: 0 <= j < i ==> !Overlaps(m[j].0, t)
    ensures r.None? <==> forall i :: 0 <= i < |m| ==> !Overlaps(m[i].0, t)
  {
    if m == [] then None
    else if Overlaps(m[0].0, t) then Some(m[0].1)
    else
      var r := FirstOverlap(m[1..], t);
      assert r.Some? ==> exists i :: 0 <= i < |m| && m[i].1 == r.value && Overlaps(m[i].0, t)
                                     && forall j :: 0 <= j < i ==> !Overlaps(m[j].0, t) by {
        if r.Some? {
          var i :| 0 <= i < |m| - 1 && m[1..][i].1 == r.value && Overlaps(m[1..][i].0, t)
                   && forall j :: 0 <= j < i ==> !Overlaps(m[1..][j].0, t);
          assert m[i + 1] == m[1..][i];
          forall j | 0 <= j < i + 1 ensures !Overlaps(m[j].0, t) {
            if j > 0 { assert m[j] == m[1..][j - 1]; }
          }
        }
      }
      assert r.None? ==> forall i :: 0 <= i < |m| ==> !Overlaps(m[i].0, t) by {
        if r.None? {
          forall i | 0 <= i < |m| ensures !Overlaps(m[i].0, t) {
            if i > 0 { assert m[i] == m[1..][i - 1]; }
          }
        }
      }
      r
  }

  /** The `for…of` over the brand map that stops at the first overlapping title. */
  method FindImage(m: seq<(string, string)>, t: string) returns (image: Option<string>)
    ensures image == FirstOverlap(m, t)
  {
    image := None;
    var i := 0;
    while i < |m|
      invariant 0 <= i <= |m|
      invariant FirstOverlap(m, t) == FirstOverlap(m[i..], t)
    {
      assert m[i..][1..] == m[i + 1..];
      if Contains(m[i].0, t) || Contains(t, m[i].0) {
        image := Some(m[i].1);
        return;
      }
      i := i + 1;
    }
  }

  /** An award whose normalised title is empty takes the first image of the map. */
  lemma EmptyTitleTakesFirst(m: seq<(string, string)>)
    requires m != []
    ensures FirstOverlap(m, "") == Some(m[0].1)
  {
    ContainsEmpty(m[0].0);
  }

  /** The per-brand map entries: each brand's code with the map of its site. */
  function BrandMapEntries(brands: seq<Brand>, pages: string -> AwardsPage, resolve: (string, string) -> Option<string>)
    : (es: seq<(string, seq<(string, string)>)>)
    ensures |es| == |brands|
  {
    seq(|brands|, i requires 0 <= i < |brands| => (brands[i].code, ImageMapOf(pages(brands[i].url), brands[i].url, resolve)))
  }

  /** `brandImageMaps`, filled by the loop over the brands. */
  method BrandImageMaps(brands: seq<Brand>, pages: string -> AwardsPage, resolve: (string, string) -> Option<string>)
    returns (maps: seq<(string, seq<(string, string)>)>)
    ensures maps == PutAll([], BrandMapEntries(brands, pages, resolve))
  {
    ghost var es := BrandMapEntries(brands, pages, resolve);
    maps := [];
    var i := 0;
    while i < |brands|
      invariant 0 <= i <= |brands|
      invariant maps == PutAll([], es[..i])
    {
      var m := FetchAwardImagesMap(pages(brands[i].url), brands[i].url, resolve);
      PutAllStep([], es, i);
      maps := Put(maps, brands[i].code, m);
      i := i + 1;
    }
    assert es[..|brands|] == es;
  }

  /** A brand code has a map exactly when some brand has that code; a brand's
      map is the one of the last brand with its code. */
  lemma BrandMapsGet(brands: seq<Brand>, pages: string -> AwardsPage, resolve: (string, string) -> Option<string>, code: string)
    ensures Get(PutAll([], BrandMapEntries(brands, pages, resolve)), code).None? <==>
            forall i :: 0 <= i < |brands| ==> brands[i].code != code
    ensures Get(PutAll([], BrandMapEntries(brands, pages, resolve)), code).Some? ==>
            exists i :: 0 <= i < |brands| && brands[i].code == code
                        && Get(PutAll([], BrandMapEntries(brands, pages, resolve)), code).value
                           == ImageMapOf(pages(brands[i].url), brands[i].url, resolve)
  {
    var es := BrandMapEntries(brands, pages, resolve);
    PutAllGet([], es, code);
    assert forall i :: 0 <= i < |es| ==> es[i].0 == brands[i].code;
    if LastValue(es, code).Some? {
      LastValueIsLast(es, code);
    }
  }

  /** `{ ...a, image }` when the award's brand has a map, the award itself otherwise. */
  function WithImage(a: Award, maps: seq<(string, seq<(string, string)>)>): (r: Award)
    ensures r.(image := a.image) == a
    ensures Get(maps, a.brand).None? ==> r == a
    ensures Get(maps, a.brand).Some? ==> r.image == FirstOverlap(Get(maps, a.brand).value, NormalizeTitle(a.title))
  {
    match Get(maps, a.brand)
    case None => a
    case Some(m) => a.(image := FirstOverlap(m, NormalizeTitle(a.title)))
  }

  /** Matching against one map: an image is found exactly when some title of
      the map overlaps the award's, and a found image is what the map holds
      under such a title. */
  lemma MatchedFromMap(t: string, m: seq<(string, string)>)
    requires UniqueKeys(m)
    ensures FirstOverlap(m, t).None? <==> forall j :: 0 <= j < |m| ==> !Overlaps(m[j].0, t)
    ensures FirstOverlap(m, t).Some? ==> exists k :: Overlaps(k, t) && Get(m, k) == FirstOverlap(m, t)
  {
    if FirstOverlap(m, t).Some? {
      var j :| 0 <= j < |m| && m[j].1 == FirstOverlap(m, t).value && Overlaps(m[j].0, t)
               && forall j' :: 0 <= j' < j ==> !Overlaps(m[j'].0, t);
      GetUnique(m, j);
    }
  }

  /** The image an award of a loaded brand gets comes from its brand's page:
      some brand with the award's code scraped a tile whose normalised title
      overlaps the award's, under that image. */
  lemma MatchedImageSource(a: Award, brands: seq<Brand>, pages: string -> AwardsPage,
                           resolve: (string, string) -> Option<string>)
    requires exists i :: 0 <= i < |brands| && brands[i].code == a.brand
    ensures var r := WithImage(a, PutAll([], BrandMapEntries(brands, pages, resolve)));
            r.image.Some? ==>
              exists i, k :: 0 <= i < |brands| && brands[i].code == a.brand
                             && Overlaps(k, NormalizeTitle(a.title))
                             && Get(ImageMapOf(pages(brands[i].url), brands[i].url, resolve), k) == r.image
  {
    var maps := PutAll([], BrandMapEntries(brands, pages, resolve));
    BrandMapsGet(brands, pages, resolve, a.brand);
    var i :| 0 <= i < |brands| && brands[i].code == a.brand
             && Get(maps, a.brand).value == ImageMapOf(pages(brands[i].url), brands[i].url, resolve);
    var m := ImageMapOf(pages(brands[i].url), brands[i].url, resolve);
    MatchedFromMap(NormalizeTitle(a.title), m);
  }
}
