/** The records both award aggregators work on: the brand configuration, the
    brands that publish awards, the raw award records of a brand's JSON
    listing, the enriched award, and the environment the aggregators read
    dates and pages through. */
module AwardData {
  import opened Wrappers
  import opened JsText
  import opened JsNumber

  /** One value of the brand configuration object, reduced to what the award
      aggregators read: the JavaScript truthiness of its `awards` flag and its
      `url` (a `null` site is `Site(false, None)`). */
  datatype Site = Site(awards: bool, url: Option<string>)

  /** A brand that publishes awards: its configuration key and its site URL. */
  datatype Brand = Brand(code: string, url: string)

  /** `site?.awards && site?.url`. */
  predicate PublishesAwards(site: Site) {
    site.awards && Truthy(site.url)
  }

  /** `getAwardBrands`: the configuration entries that publish awards, in entry order. */
  function AwardBrands(config: seq<(string, Site)>): (r: seq<Brand>)
    ensures |r| <= |config|
    ensures forall i :: 0 <= i < |r| ==> r[i].url != ""
  {
    if config == [] then []
    else
      (if PublishesAwards(config[0].1) then [Brand(config[0].0, config[0].1.url.value)] else [])
      + AwardBrands(config[1..])
  }

  /** A brand is kept exactly when its configuration entry publishes awards. */
  lemma {:induction false} AwardBrandsExactly(config: seq<(string, Site)>, b: Brand)
    ensures b in AwardBrands(config) <==>
            exists i :: 0 <= i < |config| && PublishesAwards(config[i].1)
                        && b == Brand(config[i].0, config[i].1.url.value)
  {
    if config != [] {
      AwardBrandsExactly(config[1..], b);
      var head := if PublishesAwards(config[0].1) then [Brand(config[0].0, config[0].1.url.value)] else [];
      assert AwardBrands(config) == head + AwardBrands(config[1..]);
      if exists i :: 0 <= i < |config| && PublishesAwards(config[i].1)
                     && b == Brand(config[i].0, config[i].1.url.value) {
        var i :| 0 <= i < |config| && PublishesAwards(config[i].1)
                 && b == Brand(config[i].0, config[i].1.url.value);
        if i > 0 {
          assert config[1..][i - 1] == config[i];
        }
      }
      if b in AwardBrands(config[1..]) {
        var i :| 0 <= i < |config| - 1 && PublishesAwards(config[1..][i].1)
                 && b == Brand(config[1..][i].0, config[1..][i].1.url.value);
        assert config[i + 1] == config[1..][i];
      }
    }
  }

  /** Brand filtering commutes with concatenation, so it keeps entry order. */
  lemma {:induction false} AwardBrandsAppend(c1: seq<(string, Site)>, c2: seq<(string, Site)>)
    ensures AwardBrands(c1 + c2) == AwardBrands(c1) + AwardBrands(c2)
  {
    if c1 != [] {
      assert (c1 + c2)[1..] == c1[1..] + c2;
      AwardBrandsAppend(c1[1..], c2);
    } else {
      assert c1 + c2 == c2;
    }
  }

  /** One element of a brand's `awards.json` listing; absent fields are `None`.
      `image` is carried along because the aggregators only sometimes overwrite it. */
  datatype RawAward = RawAward(
    title: Option<string>,
    fieldDate: Option<string>,
    viewNode: Option<string>,
    brandImage: Option<string>,
    image: Option<string>)

  /** An award as the aggregators return it: the raw fields plus `id`, the
      owning `brand`, the nomination window (`None` is `null`) and the image. */
  datatype Award = Award(
    id: string,
    brand: string,
    title: Option<string>,
    fieldDate: Option<string>,
    viewNode: Option<string>,
    brandImage: Option<string>,
    startDate: Option<string>,
    endDate: Option<string>,
    image: Option<string>)

  /** The JavaScript `Date` operations used: `new Date(s).getTime()` (`None` is
      NaN, an invalid date) and `toISOString()` of a valid time value. */
  datatype DateEnv = DateEnv(parse: string -> Option<int>, toIso: int -> string)

  /** What a brand's `awards.json` request yields: an array of records, a JSON
      value that is not an array, or a failed request or parse. */
  datatype Listing = Records(items: seq<RawAward>) | NotArray | ListingFailed

  /** `Array.isArray(json) ? json : []`, with a failure caught as `[]`. */
  function ListingRecords(l: Listing): (r: seq<RawAward>)
    ensures !l.Records? ==> r == []
  {
    if l.Records? then l.items else []
  }

  /** `awardsRawArr.flat()`: the listings concatenated in brand order. */
  function Flatten(ls: seq<seq<RawAward>>): (r: seq<RawAward>)
  {
    if ls == [] then [] else Flatten(ls[..|ls| - 1]) + ls[|ls| - 1]
  }

  /** `a.view_node || \`award-${idx}\``. */
  function IdFor(viewNode: Option<string>, idx: nat): (id: string)
    ensures Truthy(viewNode) ==> id == viewNode.value
    ensures !Truthy(viewNode) ==> id == "award-" + NatToString(idx)
  {
    if Truthy(viewNode) then viewNode.value else "award-" + NatToString(idx)
  }

  /** Distinct positions without a `view_node` get distinct ids. */
  lemma IdForDistinct(i: nat, j: nat)
    requires i != j
    ensures IdFor(None, i) != IdFor(None, j)
  {
    var si, sj := NatToString(i), NatToString(j);
    assert ("award-" + si)[6..] == si && ("award-" + sj)[6..] == sj;
  }

  /** A page of one award (`view_node`), reduced to the `date` attributes of its
      nomination start and end elements, or a failed fetch. */
  datatype DetailPage = Detail(startAttr: Option<string>, endAttr: Option<string>) | DetailFailed

  /** `attr ? new Date(attr).toISOString() : null`; an invalid date throws. */
  function IsoOrNull(attr: Option<string>, env: DateEnv): Result<Option<string>>
  {
    if !Truthy(attr) then Success(None)
    else match env.parse(attr.value)
      case None => Failure("RangeError: Invalid time value")
      case Some(t) => Success(Some(env.toIso(t)))
  }

  /** `fetchNominationDates`: the nomination window of an award page; any
      failure, including an invalid date in either attribute, gives both `null`. */
  function NominationDates(page: DetailPage, env: DateEnv): (r: (Option<string>, Option<string>))
    ensures r.0.Some? ==> page.Detail? && Truthy(page.startAttr)
                          && env.parse(page.startAttr.value).Some?
                          && r.0.value == env.toIso(env.parse(page.startAttr.value).value)
    ensures r.1.Some? ==> page.Detail? && Truthy(page.endAttr)
                          && env.parse(page.endAttr.value).Some?
                          && r.1.value == env.toIso(env.parse(page.endAttr.value).value)
    ensures page.DetailFailed? ==> r == (None, None)
    ensures page.Detail? && Truthy(page.startAttr) && env.parse(page.startAttr.value).None? ==> r == (None, None)
    ensures page.Detail? && Truthy(page.endAttr) && env.parse(page.endAttr.value).None? ==> r == (None, None)
  {
    match page
    case DetailFailed => (None, None)
    case Detail(s, e) =>
      match (IsoOrNull(s, env), IsoOrNull(e, env))
      case (Success(a), Success(b)) => (a, b)
      case _ => (None, None)
  }

  /** A present, valid start attribute is reported when the end attribute is absent or valid too. */
  lemma NominationStartKept(s: string, e: Option<string>, env: DateEnv)
    requires s != "" && env.parse(s).Some?
    requires !Truthy(e) || env.parse(e.value).Some?
    ensures NominationDates(Detail(Some(s), e), env).0 == Some(env.toIso(env.parse(s).value))
  {
  }

  /** The page fetched for an award: `fetch(view_node)`; with no `view_node` the request fails. */
  function DetailFor(viewNode: Option<string>, detail: string -> DetailPage): (p: DetailPage)
    ensures viewNode.None? ==> p.DetailFailed?
  {
    if viewNode.Some? then detail(viewNode.value) else DetailFailed
  }

  /** `{ ...award, ...dates }`: only the nomination window changes. */
  function WithDates(a: Award, dates: (Option<string>, Option<string>)): (r: Award)
    ensures r.(startDate := a.startDate, endDate := a.endDate) == a
    ensures r.startDate == dates.0 && r.endDate == dates.1
  {
    a.(startDate := dates.0, endDate := dates.1)
  }

  /** `{ ...award, ...dates }` with the nomination window of the award's page. */
  function Dated(a: Award, detail: string -> DetailPage, env: DateEnv): (r: Award)
    ensures r.(startDate := a.startDate, endDate := a.endDate) == a
    ensures (r.startDate, r.endDate) == NominationDates(DetailFor(a.viewNode, detail), env)
  {
    WithDates(a, NominationDates(DetailFor(a.viewNode, detail), env))
  }

  /** The brands' listings fetched in brand order and flattened (`.flat()`). */
  function Collected(brands: seq<Brand>, listing: string -> Listing): seq<RawAward> {
    Flatten(seq(|brands|, i requires 0 <= i < |brands| => ListingRecords(listing(brands[i].url))))
  }

  /** `new Date(field_date).getTime()`, NaN (`None`) for a missing or invalid date. */
  function Timestamp(a: Award, env: DateEnv): Option<int> {
    if a.fieldDate.Some? then env.parse(a.fieldDate.value) else None
  }

  /** The sort comparator `getTime(a) - getTime(b)`; a NaN difference compares as 0. */
  function ByDate(env: DateEnv): (cmp: (Award, Award) -> int)
  {
    (a: Award, b: Award) =>
      match (Timestamp(a, env), Timestamp(b, env))
      case (Some(x), Some(y)) => x - y
      case _ => 0
  }

  /** The time key of an award whose date parses (0 otherwise, never used then). */
  function TimeKey(env: DateEnv): (Award) -> int {
    (a: Award) => Timestamp(a, env).GetOr(0)
  }

  /** When every date parses, the comparator orders exactly by timestamp. */
  lemma ByDateAgrees(s: seq<Award>, env: DateEnv)
    requires forall i :: 0 <= i < |s| ==> Timestamp(s[i], env).Some?
    ensures forall i, j :: 0 <= i < |s| && 0 <= j < |s| ==>
              (ByDate(env)(s[i], s[j]) > 0 <==> TimeKey(env)(s[i]) > TimeKey(env)(s[j]))
  {
  }
}
