/** Attaching an owning brand and an id to each raw award record. Both
    aggregators take the first brand, in brand order, that owns the record's
    `view_node`, fall back to "sbr", and use `view_node || "award-<index>"` as
    the id; they differ only in what "owns" means. */
module AwardTagging {
  import opened Wrappers
  import opened JsText
  import opened AwardData
  import opened AwardTitles

  /** `brands.find(owns)`: the position of the first brand that owns the record. */
  function FirstOwner(brands: seq<Brand>, a: RawAward, owns: (RawAward, Brand) -> bool): (r: Option<nat>)
    ensures r.Some? ==> r.value < |brands| && owns(a, brands[r.value])
                        && forall j :: 0 <= j < r.value ==> !owns(a, brands[j])
    ensures r.None? ==> forall j :: 0 <= j < |brands| ==> !owns(a, brands[j])
  {
    if brands == [] then None
    else if owns(a, brands[0]) then Some(0)
    else
      match FirstOwner(brands[1..], a, owns)
      case None => None
      case Some(k) => Some(k + 1)
  }

  /** Ownership in the current aggregator: the normalised `view_node` starts
      with the normalised brand URL. */
  function NormalizedOwns(): (owns: (RawAward, Brand) -> bool)
  {
    (a: RawAward, b: Brand) => StartsWith(NormalizeTitle(a.viewNode), NormalizeTitle(Some(b.url)))
  }

  /** Ownership in the older aggregator: the raw `view_node` is present and
      starts with the raw brand URL. */
  function RawOwns(): (owns: (RawAward, Brand) -> bool)
  {
    (a: RawAward, b: Brand) => a.viewNode.Some? && StartsWith(a.viewNode.value, b.url)
  }

  /** `brand?.brand || "sbr"`. */
  function OwnerCode(brands: seq<Brand>, a: RawAward, owns: (RawAward, Brand) -> bool): (code: string)
    ensures code != ""
    ensures code != "sbr" ==> exists i :: 0 <= i < |brands| && brands[i].code == code && owns(a, brands[i])
                                         && forall j :: 0 <= j < i ==> !owns(a, brands[j])
    ensures (forall j :: 0 <= j < |brands| ==> !owns(a, brands[j])) ==> code == "sbr"
    ensures FirstOwner(brands, a, owns).Some? ==>
              code == (if brands[FirstOwner(brands, a, owns).value].code != "" then brands[FirstOwner(brands, a, owns).value].code
                       else "sbr")
  {
    match FirstOwner(brands, a, owns)
    case Some(i) => if brands[i].code != "" then brands[i].code else "sbr"
    case None => "sbr"
  }

  /** The brand a record is tagged with is the code of the first brand, in
      brand order, that owns it: owners further down the list never win. */
  lemma OwnerIsFirstOwner(brands: seq<Brand>, a: RawAward, owns: (RawAward, Brand) -> bool, i: nat)
    requires i < |brands| && owns(a, brands[i]) && brands[i].code != ""
    requires forall j :: 0 <= j < i ==> !owns(a, brands[j])
    ensures OwnerCode(brands, a, owns) == brands[i].code
  {
  }

  /** `{ ...a, id, brand }` for the record at position `idx`. */
  function TagOne(a: RawAward, idx: nat, brands: seq<Brand>, owns: (RawAward, Brand) -> bool): (r: Award)
    ensures r.id == IdFor(a.viewNode, idx) && r.brand == OwnerCode(brands, a, owns)
    ensures r.title == a.title && r.fieldDate == a.fieldDate && r.viewNode == a.viewNode
    ensures r.brandImage == a.brandImage && r.image == a.image
  {
    Award(IdFor(a.viewNode, idx), OwnerCode(brands, a, owns), a.title, a.fieldDate, a.viewNode,
          a.brandImage, None, None, a.image)
  }

  /** The tagging `map`: one tagged award per raw record, in the same order. */
  function Tag(raws: seq<RawAward>, brands: seq<Brand>, owns: (RawAward, Brand) -> bool): (r: seq<Award>)
    ensures |r| == |raws|
    ensures forall i :: 0 <= i < |raws| ==> r[i] == TagOne(raws[i], i, brands, owns)
  {
    seq(|raws|, i requires 0 <= i < |raws| => TagOne(raws[i], i, brands, owns))
  }

  /** A tagged award's id is the id its position gives it. */
  predicate IdsByPosition(s: seq<Award>) {
    forall i :: 0 <= i < |s| ==> s[i].id == IdFor(s[i].viewNode, i)
  }

  lemma TagIdsByPosition(raws: seq<RawAward>, brands: seq<Brand>, owns: (RawAward, Brand) -> bool)
    ensures IdsByPosition(Tag(raws, brands, owns))
  {
  }
}
