/** The static brand configuration read by the statistics route and the
    all-brands page: `brand_properties.json` (brand code to its display name,
    logo, GA4 filter and group) and `groups.json` (group key to its name and
    main brand). Both are JSON objects, so they are ordered association lists
    with distinct keys. */
module BrandConfig {
  import opened Wrappers
  import opened JsObject

  /** The string-match kinds a GA4 string filter may use. */
  datatype MatchType = MatchTypeUnspecified | Exact | Contains | BeginsWith | EndsWith

  /** A GA4 string filter; `caseSensitive` may be absent. */
  datatype StringFilter = StringFilter(matchType: MatchType, value: string, caseSensitive: Option<bool>)

  /** A GA4 dimension filter on one field. */
  datatype GA4Filter = GA4Filter(fieldName: string, stringFilter: StringFilter)

  /** One entry of `brand_properties.json`. */
  datatype BrandProperty = BrandProperty(
    name: string,
    image: Option<string>,
    ga4Filter: Option<GA4Filter>,
    group: Option<string>)

  /** One entry of `groups.json`. */
  datatype GroupInfo = GroupInfo(name: string, main: string)

  /** The group key of a brand (`BRAND_PROPERTIES[code]?.group`). */
  function GroupOf(props: seq<(string, BrandProperty)>, code: string): (g: Option<string>)
    ensures g.Some? ==> Get(props, code).Some? && Get(props, code).value.group == g
    ensures Get(props, code).None? ==> g.None?
  {
    match Get(props, code)
    case None => None
    case Some(p) => p.group
  }
}
