# realtime_ga4 in Dafny: the awards pipeline, the API caches and the dashboards

realtime_ga4 is a Next.js media dashboard. It shows the live audience of a
group of news brands, read from Google Analytics 4. It also shows a calendar
of the industry awards those brands run. This project models its core:

- **The awards aggregators.** `lib/GetAwards.ts` is the current one and
  `lib/qsrAwards.ts` the older one. Each reads the brand configuration,
  collects every brand's award listing and tags each record with its owning
  brand and an id. It reads the nomination dates from each award page and
  matches each award with an image scraped from the brand's awards page.
  Finally it sorts by award date. The current aggregator also removes
  duplicates by canonical title and day.
- **The server caches.** `/api/awards` keeps the aggregated list for seven
  days. `/api/active-now` keeps one count per polling interval.
  `/api/all/active` keeps per-brand, per-metric GA4 counts: the current
  count for 60 seconds, today's for 5 minutes, and the 30- and 365-day
  counts until the next local midday.
- **The dashboards.** The all-brands table groups rows and sums them, and
  sorts them. The brand and QSR dashboards derive their feed URLs, which
  feed the tickers, the top-read list and the video rotator; the brand
  dashboard's odometers read `/api/active-365-days/<brand>` and the other
  three `/api/active-*/<brand>` endpoints. The two editorial pages rotate through brands, and a settings
  form writes the rotation parameters into the page URL.
- **The components.** The Countdown label, the numeric Stepper, the Vimeo
  VideoRotator, the awards grid and the next-award countdown.

JavaScript values are modelled as follows:
- A missing JSON field is an `Option`. JavaScript truthiness is `Truthy`:
  present and not empty.
- A plain object is an ordered list of key/value pairs, because
  `Object.entries` and `for…in` see insertion order (module `JsObject`).
- `Number(...)` gives `None` where JavaScript gives `NaN`.
- Date parsing, `toISOString`, URL resolution, page fetches and GA4 reports
  are parameters of the model (`DateEnv`, the `Sources` records, report
  values).
- The route modules keep their caches in classes whose `HandleGet` methods
  update the fields in place. Each method is proved equal to a pure
  `Respond` function, and the properties are lemmas about that function.
- The loops of the aggregators are methods proved against the functions
  they compute. The in-place `Array.prototype.sort` is an insertion sort on
  an array (`StableSort.SortInPlace`), proved to be a stable, sorting
  permutation.

## Model

| member | source | states |
|---|---|---|
| AwardTitles.DecodeAmp | lib/GetAwards.ts:31 | a title without `&` comes back unchanged; what it does to each `&amp;` and lone `&` is stated by the lemmas below |
| AwardTitles.AmpToAnd | lib/GetAwards.ts:32 | no `&` remains afterwards, and text without one is unchanged |
| AwardTitles.CollapseSpaces | lib/GetAwards.ts:33 | the result is single-spaced (each whitespace run is one plain space), keeps the absence of `&`, and starts with a space only if the input did |
| AwardTitles.DecodeAmpPrefix | lib/GetAwards.ts:31 | text before the first `&` passes through unchanged |
| AwardTitles.DecodeAmpReplaces | lib/GetAwards.ts:31 | the first `&amp;`, in any letter case, becomes a single `&` and decoding carries on after it |
| AwardTitles.DecodeAmpKeepsLoneAmp | lib/GetAwards.ts:31 | a first `&` not followed by `amp;` stays, and decoding carries on after it |
| AwardTitles.AmpToAndAppend | lib/GetAwards.ts:32 | the replacement works piece by piece |
| AwardTitles.AmpToAndReplaces | lib/GetAwards.ts:32 | every `&` becomes "and" and every other character stays, wherever it stands |
| AwardTitles.CollapseKeepsText | lib/GetAwards.ts:33 | collapsing keeps every non-whitespace character, in order |
| AwardTitles.TrimStartRun | lib/GetAwards.ts:33-34 | a run of whitespace before text is trimmed away entirely |
| AwardTitles.CollapseRun | lib/GetAwards.ts:33 | a whitespace run of any length becomes exactly one space |
| AwardTitles.NormalizeTitle | lib/GetAwards.ts:27-36 | a missing or empty title gives "". Every result is canonical: no `&`, no leading, trailing or doubled whitespace, and no upper-case letter |
| AwardTitles.NormalizeKeepsText | lib/GetAwards.ts:27-36 | the canonical title holds the same non-whitespace text as the input with `&amp;` decoded, `&` spelt "and", and letters lower-cased |
| AwardTitles.NormalizedFixpoint | lib/GetAwards.ts:27-36 | a title already in canonical shape is its own canonical form |
| AwardTitles.NormalizeIdempotent | lib/GetAwards.ts:27-36 | canonicalising twice is canonicalising once |
| AwardTitles.CollapseSingleSpaced | lib/GetAwards.ts:33 | collapsing leaves single-spaced text unchanged |
| AwardTitles.FirstToken | lib/GetAwards.ts:40 | `split(" ")[0]` holds no space and only characters of its input |
| AwardTitles.LastPiece | lib/GetAwards.ts:40 | `split(sep).pop()` holds no separator |
| AwardTitles.BestSrc | lib/GetAwards.ts:38-41 | no URL exactly when the attribute is missing or empty; otherwise a URL with no space and no comma |
| AwardTitles.BestSrcOfCandidates | lib/GetAwards.ts:38-41 | for candidates `url descriptor` joined by commas, the result is the URL of the last candidate |
| AwardTitles.BestSrcOfJoin | lib/GetAwards.ts:38-41 | the result is the first token of the trimmed last comma-separated candidate |
| AwardTitles.BestSrcOfPieces | lib/GetAwards.ts:38-41 | the same, stated for any attribute through its comma pieces |
| AwardTitles.FirstTokenOfUrl | lib/GetAwards.ts:40 | trimming `url descriptor` and taking the first token yields the URL |
| AwardData.AwardBrands | lib/GetAwards.ts:53-58 | at most one brand per configuration entry, and every brand has a non-empty URL |
| AwardData.AwardBrandsExactly | lib/GetAwards.ts:54-58 | a brand is listed if and only if some entry publishes awards and has a URL and the brand is that entry's code and URL |
| AwardData.AwardBrandsAppend | lib/GetAwards.ts:53-58 | the filter commutes with concatenation, so brands keep configuration order |
| AwardData.ListingRecords | lib/GetAwards.ts:157-160 | a listing that is not a JSON array, or whose fetch failed, contributes no record |
| AwardData.IdFor | lib/GetAwards.ts:175 | the id is the `view_node` when truthy, else `award-<index>` |
| AwardData.IdForDistinct | lib/GetAwards.ts:175 | records without a `view_node` at different positions get different ids |
| AwardData.NominationDates | lib/GetAwards.ts:122-139 | a date is present only when the page was read and its attribute is truthy. A failed page gives no dates. An unparseable attribute makes `toISOString` throw, so both dates are null |
| AwardData.NominationStartKept | lib/GetAwards.ts:130-135 | a parseable start attribute becomes the ISO text of its instant |
| AwardData.DetailFor | lib/GetAwards.ts:124 | a record without a `view_node` cannot have its page read |
| AwardData.WithDates | lib/GetAwards.ts:205-210 | `{...award, ...dates}` sets the two dates and changes nothing else |
| AwardData.Dated | lib/GetAwards.ts:205-210 | attaching nomination dates changes no other field, and the dates are those read from the record's own award page |
| AwardData.ByDateAgrees | lib/GetAwards.ts:249-253 | when every date parses, the comparator's sign is the order of the timestamps |
| AwardTagging.FirstOwner | lib/GetAwards.ts:169-171 | `find` gives the position of an owning brand with no owning brand before it, or nothing exactly when no brand owns the record |
| AwardTagging.OwnerCode | lib/GetAwards.ts:176 | the brand is never empty. It is "sbr" when no brand owns the record, and otherwise the code of the first owning brand |
| AwardTagging.OwnerIsFirstOwner | lib/GetAwards.ts:169-176 | when brand `i` owns the record, has a code, and no earlier brand owns it, the record gets brand `i`'s code |
| AwardTagging.TagOne | lib/GetAwards.ts:173-177 | the tagged award has the position's id and the owner's code and keeps every other field |
| AwardTagging.Tag | lib/GetAwards.ts:168-178 | one tagged award per record, in order, each tagged at its own position |
| AwardTagging.TagIdsByPosition | lib/GetAwards.ts:175 | every tagged award carries the id of its position |
| AwardDedup.KeyOf | lib/GetAwards.ts:187-191 | the key is missing exactly when the date cannot be parsed, where `toISOString` throws |
| AwardDedup.KeyOfIgnoresId | lib/GetAwards.ts:187-196 | the key ignores the id, so restamping keeps the key |
| AwardDedup.FirstIndices | lib/GetAwards.ts:193 | the kept positions are exactly the first record of each key, in increasing order |
| AwardDedup.Restamp | lib/GetAwards.ts:194-196 | re-deriving the id changes no other field |
| AwardDedup.Dedup | lib/GetAwards.ts:182-201 | the loop throws `RangeError: Invalid time value` exactly when an eligible record has an unparseable date; otherwise it returns the first record of each key, in first-seen order |
| AwardDedup.Deduped | lib/GetAwards.ts:182-201 | at most one award per record, each the restamped record at a position that is first of its key |
| AwardDedup.DedupedEligible | lib/GetAwards.ts:185 | every kept award has a title and a date |
| AwardDedup.DedupedKeysUnique | lib/GetAwards.ts:191-193 | no two kept awards share a key |
| AwardDedup.DedupedComplete | lib/GetAwards.ts:193-198 | every eligible record has a kept award with its key: the first record of that key, restamped |
| AwardDedup.DedupedAreFirsts | lib/GetAwards.ts:193-201 | on tagged records each kept award is the input record at a first-of-key position, unchanged |
| AwardImages.FirstTruthy | lib/GetAwards.ts:77-81 | an `a \|\| b \|\| …` chain gives the first truthy operand, or the last operand when none is truthy |
| AwardImages.StandardImage | lib/GetAwards.ts:77-81 | the image is the first truthy of data-srcset, srcset, data-src and src |
| AwardImages.ElementorImage | lib/GetAwards.ts:100-103 | the image is the first truthy of srcset, data-src and src |
| AwardImages.TileEntry | lib/GetAwards.ts:74-89 | a tile without a title or image adds nothing. A relative image that cannot be resolved throws. Otherwise the entry is the canonical title with the resolved image |
| AwardImages.CollectFails | lib/GetAwards.ts:115-117 | the tiles fail together exactly when some tile throws |
| AwardImages.CollectEntries | lib/GetAwards.ts:73-90 | an entry is collected exactly when some tile yields it |
| AwardImages.AssignTiles | lib/GetAwards.ts:73-90 | the tile loop fails exactly when a tile throws; otherwise the map is the tiles' entries assigned in order |
| AwardImages.FetchAwardImagesMap | lib/GetAwards.ts:63-118 | the method computes the map the page defines: both selector loops, and `{}` on any failure |
| AwardImages.ImageMapOf | lib/GetAwards.ts:63-118 | a page that could not be read gives `{}`, and the map has each title at most once |
| AwardImages.ImageMapLastWins | lib/GetAwards.ts:73-112 | a title holds the image of its last tile, elementor tiles after standard ones |
| AwardImages.ImageMapFailure | lib/GetAwards.ts:115-117 | one standard tile that throws empties the whole map |
| AwardImages.ImageMapEntrySource | lib/GetAwards.ts:73-112 | every map entry comes from a tile of the page that yields it |
| AwardImages.FirstOverlap | lib/GetAwards.ts:234-242 | the image of the first entry whose title contains, or is contained in, the award's. Nothing exactly when no entry overlaps |
| AwardImages.FindImage | lib/GetAwards.ts:232-242 | the early-exit loop finds that first overlapping entry |
| AwardImages.EmptyTitleTakesFirst | lib/GetAwards.ts:235-237 | an award with an empty canonical title takes the first image of the map |
| AwardImages.BrandImageMaps | lib/GetAwards.ts:218-221 | the loop builds one entry per brand code, assigned in brand order |
| AwardImages.BrandMapsGet | lib/GetAwards.ts:218-221 | a code has a map exactly when some brand has that code, and the map is that brand's scraped one |
| AwardImages.WithImage | lib/GetAwards.ts:226-245 | only the image changes. An award whose brand has no map is returned as is; otherwise its image is the first entry of its brand's map whose title overlaps its canonical title, or none |
| AwardImages.MatchedFromMap | lib/GetAwards.ts:232-242 | no image exactly when no title of the map overlaps the award's; a found image is what the map holds under an overlapping title |
| AwardImages.MatchedImageSource | lib/GetAwards.ts:218-245 | a matched image comes from the page of a brand with the award's code, under a scraped title that overlaps the award's |
| GetAwards.WithImages | lib/GetAwards.ts:225-245 | one award per input award |
| GetAwards.WithImagesAt | lib/GetAwards.ts:225-245 | each award is matched on its own |
| GetAwards.Enriched | lib/GetAwards.ts:205-245 | enrichment keeps the number of awards |
| GetAwards.DatedAll | lib/GetAwards.ts:205-210 | each award gets the dates of its own page |
| GetAwards.MatchImages | lib/GetAwards.ts:225-245 | the mapping loop computes the matched awards |
| GetAwards.Enrich | lib/GetAwards.ts:205-245 | the dates, the brand maps and the matching compute the enriched awards |
| GetAwards.GetAwardsRun | lib/GetAwards.ts:144-258 | the whole aggregation computes `AwardsOf`, the pipeline as a function of the sources |
| GetAwards.DedupedDatesParse | lib/GetAwards.ts:187-189 | after deduplication every award's date parses |
| GetAwards.EnrichedTimestamps | lib/GetAwards.ts:205-245 | enrichment keeps every timestamp |
| GetAwards.AwardsSorted | lib/GetAwards.ts:249-253 | a successful result is in ascending date order |
| GetAwards.AwardsAreEnrichedDeduped | lib/GetAwards.ts:201-257 | a successful result is a permutation of the enriched deduplicated awards, and awards with the same timestamp stay in first-seen order |
| GetAwards.AwardsOf | lib/GetAwards.ts:144-258 | the run fails exactly when the configuration cannot be read (with its error) or an eligible record has an unparseable date (with `RangeError: Invalid time value`); a result has at most one award per tagged record |
| GetAwards.UnloadedBrandUnchanged | lib/GetAwards.ts:226-228 | an award whose brand code matches no brand keeps its image |
| QsrAwards.TileImage | lib/qsrAwards.ts:48 | the first token of `data-srcset` when non-empty, otherwise `src` |
| QsrAwards.LinkEntry | lib/qsrAwards.ts:47-49 | a tile adds an entry if and only if its link and image are truthy, and the entry is the trimmed link with the image |
| QsrAwards.Entries | lib/qsrAwards.ts:46-50 | at most one entry per tile |
| QsrAwards.EntriesFrom | lib/qsrAwards.ts:46-50 | an entry is present exactly when some tile yields it |
| QsrAwards.FetchLinkImagesMap | lib/qsrAwards.ts:40-56 | the `.each` loop computes the page's link map, and `{}` on failure |
| QsrAwards.LinkMapLastWins | lib/qsrAwards.ts:49 | each link holds the image of its last tile, and no link appears twice |
| QsrAwards.LinkMapKeys | lib/qsrAwards.ts:47-49 | a key is present only for a tile with that trimmed link and an image |
| QsrAwards.LastMapValue | lib/qsrAwards.ts:111 | no value exactly when no map has the key |
| QsrAwards.MergedGet | lib/qsrAwards.ts:111 | after `Object.assign`, a key has its value from the last brand map that has it |
| QsrAwards.MergeMaps | lib/qsrAwards.ts:111 | the merge loop computes the assigned maps |
| QsrAwards.BrandLinkMaps | lib/qsrAwards.ts:110 | one map per brand, none with a repeated key |
| QsrAwards.FetchBrandLinkMaps | lib/qsrAwards.ts:110 | the fetch loop computes the brands' maps in brand order |
| QsrAwards.FinalImage | lib/qsrAwards.ts:117-120 | only the image changes. It is the page image when truthy, else the listing's image when truthy, else `""`. A missing `view_node` looks up "undefined" |
| QsrAwards.QsrGetAwardsRun | lib/qsrAwards.ts:75-121 | the older aggregation computes `QsrAwardsOf` |
| QsrAwards.QsrAwardsOf | lib/qsrAwards.ts:75-121 | the run fails only when the configuration cannot be read, with its error; otherwise one award per collected record, each with an image |
| QsrAwards.FinalImageKeepsOrder | lib/qsrAwards.ts:114-120 | the final image never changes the comparator's answer |
| QsrAwards.QsrKeepsEveryRecord | lib/qsrAwards.ts:89-120 | without deduplication every collected record is kept exactly once |
| QsrAwards.QsrSorted | lib/qsrAwards.ts:114 | when every date parses, the result is in ascending date order |
| AwardsRoute.AwardsCache.constructor | src/app/api/awards/route.ts:5-6 | the cache starts empty, with timestamp 0 |
| AwardsRoute.Respond | src/app/api/awards/route.ts:10-46 | the answer carries no header exactly when it comes from the cache. It is a 500 "Failed to fetch awards" exactly when the cache is not used and the aggregation fails. The cache either stays or holds the fresh aggregation stamped now |
| AwardsRoute.AwardsCache.HandleGet | src/app/api/awards/route.ts:10-46 | the handler's answer and new cache are those of `Respond` on the old cache |
| AwardsRoute.RespondCases | src/app/api/awards/route.ts:17-37 | a cache hit answers the cached array without a header and changes nothing. A miss answers the fresh aggregation with the week-long `Cache-Control`. A failure keeps the cache |
| AwardsRoute.ForceRefreshAggregates | src/app/api/awards/route.ts:13-44 | `cache=false` always aggregates afresh, answering 500 "Failed to fetch awards" on failure |
| AwardsRoute.CachedForSevenDays | src/app/api/awards/route.ts:8-31 | for seven days after a successful aggregation, every request without `cache=false` gets that array from the cache, whatever the sources hold |
| ActiveNowRoute.DefaultDuration | src/app/api/active-now/route.ts:12 | the default is never 0: the configured number when it parses and is not 0, otherwise 60000 |
| ActiveNowRoute.Interval | src/app/api/active-now/route.ts:23-29 | the interval is at least 10000. A valid parameter of at least 10000 is kept, a valid one below 10000 and an unparseable one give exactly 10000, and an absent parameter takes the default (raised to 10000) |
| ActiveNowRoute.ActiveUsers | src/app/api/active-now/route.ts:48-58 | the count comes from the totals when present, else from the first row, else 0 |
| ActiveNowRoute.ActiveNowCache.constructor | src/app/api/active-now/route.ts:9-12 | the cache map starts empty, with the configured default |
| ActiveNowRoute.Respond | src/app/api/active-now/route.ts:17-77 | the answer is a cached one exactly when the interval's entry is younger than the interval, and a 500 exactly when it is not and the report fails; both keep the map. Otherwise the interval's entry becomes the fetched count stamped now, and that count is answered uncached |
| ActiveNowRoute.ActiveNowCache.HandleGet | src/app/api/active-now/route.ts:17-77 | the handler's new map and answer are those of `Respond` |
| ActiveNowRoute.OnlyOwnIntervalChanges | src/app/api/active-now/route.ts:32-61 | a request never changes the entry of another interval |
| ActiveNowRoute.RepeatWithinInterval | src/app/api/active-now/route.ts:33-34 | a repeat within the interval after a fetch is answered from the cache with the same count |
| ActiveNowRoute.FailureKeepsCache | src/app/api/active-now/route.ts:66-75 | a failed report answers 500 with its message and keeps the cache |
| AllActiveRoute.NextMiddayTtl | src/app/api/all/active/route.ts:58-66 | the lifetime is positive and at most a day, it ends exactly at 12:00, and it ends today if and only if it is still before noon |
| AllActiveRoute.MetricName | src/app/api/all/active/route.ts:158-190 | a metric's key suffix is non-empty and has no colon |
| AllActiveRoute.StatKeyInjective | src/app/api/all/active/route.ts:158-190 | different brand/metric pairs never share a `brand:metric` timestamp key |
| AllActiveRoute.ColonInLongerName | src/app/api/all/active/route.ts:158-190 | two equal keys with brands of different lengths would put a colon inside a metric name |
| AllActiveRoute.WithStat | src/app/api/all/active/route.ts:159-185 | storing one metric sets that metric and leaves the other three unchanged |
| AllActiveRoute.BuildGA4Filter | src/app/api/all/active/route.ts:75-87 | there is an expression exactly when there is a filter; it keeps the field name and is case-sensitive only when the filter explicitly says `true` |
| AllActiveRoute.FilterOf | src/app/api/all/active/route.ts:104 | a brand has a filter only if its configuration holds exactly that filter |
| AllActiveRoute.PropertyName | src/app/api/all/active/route.ts:96 | the property is "properties/" followed by the brand's GA4 property id, or by "undefined" when the brand has none |
| AllActiveRoute.RequestFor | src/app/api/all/active/route.ts:95-105 | the report asks for the brand's property with its filter, and ends today for the today count and yesterday for the 30- and 365-day counts |
| AllActiveRoute.ReportValue | src/app/api/all/active/route.ts:107-109 | a report without a row counts 0; otherwise the count is `Number` of the first row's value |
| AllActiveRoute.Estimate | src/app/api/all/active/route.ts:119 | the estimate is NaN only for NaN input and at least 1. It is exactly 1 when twice the today count is below 144 (`today / 48` rounds to at most 1), and above 1 it is `today / 48` rounded to the nearest integer |
| AllActiveRoute.Realtime | src/app/api/all/active/route.ts:113-134 | a filtered brand gets the estimate. An unfiltered one gets `Number` of its realtime value, or the estimate when the realtime report has no row |
| AllActiveRoute.Ttl | src/app/api/all/active/route.ts:54-66 | the current count lives 60000 ms, the today count 300000 ms, and the 30- and 365-day counts until the next local midday |
| AllActiveRoute.RefreshMetric | src/app/api/all/active/route.ts:158-193 | a metric step keeps the set of brands, and the brand still has stats |
| AllActiveRoute.Initialised | src/app/api/all/active/route.ts:155 | `??=` gives the brand stats, appending it as a new key only when absent, and touches no timestamp |
| AllActiveRoute.RefreshBrand | src/app/api/all/active/route.ts:154-194 | after a brand's work the brand has stats, appended as a new key only when it had none |
| AllActiveRoute.RefreshAll | src/app/api/all/active/route.ts:151-195 | every existing brand stays, every listed brand ends with stats, and no other brand appears |
| AllActiveRoute.Handled | src/app/api/all/active/route.ts:137-198 | after a request every configured brand has stats. Without `cache=false` no brand is lost; with it the data holds configured brands only |
| AllActiveRoute.AllActiveCache.constructor | src/app/api/all/active/route.ts:68 | the cache starts with no data and no timestamps |
| AllActiveRoute.AllActiveCache.RefreshMetricStep | src/app/api/all/active/route.ts:158-193 | the method updates the fields exactly as `RefreshMetric` |
| AllActiveRoute.AllActiveCache.RefreshBrandStep | src/app/api/all/active/route.ts:154-194 | the method updates the fields exactly as `RefreshBrand` |
| AllActiveRoute.AllActiveCache.RefreshBrands | src/app/api/all/active/route.ts:151-195 | the loop over the brands updates the fields exactly as `RefreshAll` |
| AllActiveRoute.AllActiveCache.HandleGet | src/app/api/all/active/route.ts:137-198 | the handler's new state is `Handled` of the old one, and it answers the new data |
| AllActiveRoute.RefreshMetricOther | src/app/api/all/active/route.ts:158-193 | a metric step of one brand leaves every other brand's stats and timestamps unchanged |
| AllActiveRoute.RefreshMetricLocal | src/app/api/all/active/route.ts:158-193 | a metric step depends only on its own brand's stats and timestamps |
| AllActiveRoute.InitialisedOther | src/app/api/all/active/route.ts:155 | initialising one brand leaves every other brand unchanged |
| AllActiveRoute.InitialisedLocal | src/app/api/all/active/route.ts:155 | initialising depends only on the brand's own state |
| AllActiveRoute.RefreshBrandOther | src/app/api/all/active/route.ts:154-194 | a brand's work leaves every other brand unchanged |
| AllActiveRoute.RefreshBrandLocal | src/app/api/all/active/route.ts:154-194 | a brand's work depends only on that brand's own state |
| AllActiveRoute.RefreshAllOther | src/app/api/all/active/route.ts:153-195 | brands outside the list are left unchanged |
| AllActiveRoute.RefreshAllIsPerBrand | src/app/api/all/active/route.ts:153-195 | with distinct brands, each brand ends as its own work alone leaves it, so the order of the concurrent callbacks does not matter |
| AllActiveRoute.RefreshBrandFresh | src/app/api/all/active/route.ts:154-194 | after a brand's work every one of its four metrics is fresh |
| AllActiveRoute.StepFreshOrKept | src/app/api/all/active/route.ts:158-193 | a metric step makes its own metric fresh and keeps the timestamps of the other metrics |
| AllActiveRoute.RefreshBrandMetric | src/app/api/all/active/route.ts:154-194 | a fresh metric keeps its value and timestamp. A stale one holds the fetched value stamped now, and the realtime estimate uses the today count just refreshed |
| AllActiveRoute.StepValue | src/app/api/all/active/route.ts:158-193 | a metric step changes only its own metric: it keeps the value when fresh and stores the fetched value when stale |
| AllActiveRoute.RefreshAllFromEmpty | src/app/api/all/active/route.ts:143-155 | from an empty cache, the data holds exactly the listed brands, in order |
| AllActiveRoute.NewBrandKeys | src/app/api/all/active/route.ts:155 | a new brand is appended after the existing keys |
| AllActiveRoute.KeysDistinct | src/app/api/all/active/route.ts:151 | `Object.keys` of an object holds no key twice |
| AllActiveRoute.ClearedRequestKeys | src/app/api/all/active/route.ts:139-155 | a `cache=false` request answers exactly the configured brands, in configuration order |
| AllActiveRoute.HandledPerBrand | src/app/api/all/active/route.ts:139-197 | after a request each configured brand is as its own callback leaves it (on the cleared cache under `cache=false`), and an unconfigured brand keeps its state |
| AllActivePage.StatNamed | src/app/all-active/page.tsx:50 | a recognised sort value names the count whose key it is |
| AllActivePage.GetSortParams | src/app/all-active/page.tsx:45-53 | without a window the sort is 365 days, descending. `sort=name` sorts by name, a count key sorts by that count and anything else by 365 days. The sort is ascending if and only if the lower-cased `order` (default "desc") is "asc" |
| AllActivePage.TableModeCases | src/app/all-active/page.tsx:56-62 | the table layout is used on the server, never below 768 pixels, never with `table=0` or `table=false`, and always otherwise |
| AllActivePage.GetBrandMain | src/app/all-active/page.tsx:65-69 | a brand with a truthy group key that names a known group gets that group's main brand; a brand without a group key, or whose group is unknown, is its own main brand |
| AllActivePage.GetBrandName | src/app/all-active/page.tsx:72-79 | the ungrouped view, and a brand without a group key, show the configured name or the upper-cased code. In the grouped view a brand of a known group shows the group's name, and a brand of an unknown group its own configured name |
| AllActivePage.GetBrandImage | src/app/all-active/page.tsx:82-93 | the image is never empty. A brand's own truthy image wins. Failing that, in the grouped view a grouped brand shows its main brand's truthy image. Otherwise the default image |
| AllActivePage.SameGroupSameDisplay | src/app/all-active/page.tsx:65-79 | two brands of the same existing group share a main brand and a grouped display name |
| AllActivePage.UngroupedName | src/app/all-active/page.tsx:72-79 | an ungrouped brand is its own main brand and shows the same name in both views; the ungrouped view shows the configured name or the upper-cased code |
| AllActivePage.ImageFallbacks | src/app/all-active/page.tsx:82-93 | a brand's own image wins in both views. Without one, the ungrouped view and an unconfigured brand show the default image, and a grouped brand in the grouped view shows its main brand's image or the default |
| AllActivePage.SameGroupSameImage | src/app/all-active/page.tsx:82-93 | in the grouped view two brands of one known group without images of their own show the same image |
| AllActivePage.RowOf | src/app/all-active/page.tsx:113-126 | a row keeps the brand and its group, and takes each of the four counts from the response, a null count reading as 0 |
| AllActivePage.RowsOf | src/app/all-active/page.tsx:113-127 | one row per brand of the response, in key order |
| AllActivePage.SumStatsAppend | src/app/all-active/page.tsx:183-192 | the reduce adds one row's counts to the running totals |
| AllActivePage.GroupAccGet | src/app/all-active/page.tsx:134-151 | each grouped row belongs to one main brand. Its counts are the sums of its members' and its group is its first member's; a main brand with no members has no row |
| AllActivePage.MembersEmpty | src/app/all-active/page.tsx:136-151 | a main brand has members exactly when some row is grouped under it |
| AllActivePage.GroupAccHas | src/app/all-active/page.tsx:137-145 | the grouped view has a row for a main brand exactly when some row maps to it, and the row is labelled with the main brand |
| AllActivePage.GroupAccUnique | src/app/all-active/page.tsx:139-145 | the grouped view never has two rows for one main brand |
| AllActivePage.GroupAccTotals | src/app/all-active/page.tsx:134-153 | grouping preserves the totals of all four counts |
| AllActivePage.GroupAcc | src/app/all-active/page.tsx:133-151 | grouping never yields more rows than it is given |
| AllActivePage.GroupedTotals | src/app/all-active/page.tsx:153-192 | the totals of the grouped rows equal the totals of the ungrouped rows |
| AllActivePage.ShownRows | src/app/all-active/page.tsx:110-153 | the ungrouped view shows one row per response key; either view has at most one row per key and the same four column totals |
| AllActivePage.Comparator | src/app/all-active/page.tsx:198-208 | a count sort compares the count (negated when descending) by difference; a name sort collates the displayed names, in reverse when descending |
| AllActivePage.StatSortCorrect | src/app/all-active/page.tsx:198-208 | a count sort keeps every row, orders by the count (descending unless ascending was asked for) and keeps rows with equal counts in their order |
| AllActivePage.Fetched | src/app/all-active/page.tsx:104-162 | a non-OK response changes nothing, a failure only ends the loading, a body replaces the rows with the shown rows of its data and ends the loading, and the layout is never touched |
| AllActivePage.AllStatsPage.constructor | src/app/all-active/page.tsx:98-100 | no rows, loading, and the layout of the current URL and width |
| AllActivePage.AllStatsPage.Resize | src/app/all-active/page.tsx:173 | a resize recomputes only the layout |
| AllActivePage.AllStatsPage.FetchAllStats | src/app/all-active/page.tsx:104-162 | the fetch updates the page state as `Fetched` |
| AllActivePage.AllStatsPage.ComputeTotals | src/app/all-active/page.tsx:183-192 | the reduce computes the totals of the rows |
| AllActivePage.AllStatsPage.SortedRows | src/app/all-active/page.tsx:198-208 | the copy is sorted with the page's comparator, leaving the rows untouched |
| AllActivePage.BuildRows | src/app/all-active/page.tsx:110-127 | the `for…of` loop builds one row per response key |
| AllActivePage.GroupRows | src/app/all-active/page.tsx:133-153 | the `forEach` loop builds the grouped rows |
| BrandConfig.GroupOf | src/app/all-active/page.tsx:66 | a group key exists only for a configured brand, and it is that brand's group |
| BrandDashboard.FeedUrl | src/components/BrandDashboard.tsx:35-38 | an override wins. Without one, a URL exists exactly when the site URL does (reading `replace` off a missing URL throws), and it is the site URL, minus at most one trailing slash, followed by the suffix |
| BrandDashboard.FeedsOf | src/components/BrandDashboard.tsx:35-38 | the four feeds exist exactly when the site URL does, or all four overrides do. The news feed comes from `exclusivesUrl`, the exclusive feed from `exclusiveFeed`, the videos feed from `videosFeed` and the top-read feed from `articlesFeed`, each falling back to the site URL with its suffix |
| BrandDashboard.OneSlashStripped | src/components/BrandDashboard.tsx:35-38 | one trailing slash is dropped and only one: `a/` gives the feed of `a`, and `a//` keeps one slash |
| BrandDashboard.DerivedFeeds | src/components/BrandDashboard.tsx:35-38 | without overrides the four feeds are the stripped site URL with the news, exclusive, videos and top-read suffixes |
| BrandDashboard.Endpoint | src/components/BrandDashboard.tsx:59-74 | an odometer endpoint is under `/api/` and ends in `/<brand>` |
| BrandDashboard.Odometers | src/components/BrandDashboard.tsx:59-74 | the odometers read `/api/active-365-days/`, `/api/active-30-days/`, `/api/active-today/` and `/api/active-now/` followed by the brand, in that order |
| BrandDashboard.EndpointStarts | src/components/BrandDashboard.tsx:59-74 | an `active-` statistic's endpoint starts with `/api/active-` |
| BrandDashboard.OdometersInjective | src/components/BrandDashboard.tsx:59-74 | different brands read different endpoints for every statistic |
| QsrDashboard.SafeReplace | src/components/qsrDashboard.tsx:28 | an empty or missing URL gives "", otherwise the URL minus at most one trailing slash |
| QsrDashboard.QsrFeedUrl | src/components/qsrDashboard.tsx:30-38 | an override wins. Without a site URL the feed is the bare suffix; otherwise it is the brand dashboard's feed URL |
| QsrDashboard.QsrFeedsOf | src/components/qsrDashboard.tsx:30-38 | with no configuration the three feeds are the bare suffixes; otherwise the news feed comes from `exclusivesUrl`, the exclusive feed from `exclusiveFeed` and the videos feed from `videosFeed`, each falling back to the site URL |
| QsrDashboard.AgreesWithBrandDashboard | src/components/qsrDashboard.tsx:30-38 | for a configuration with a non-empty site URL the QSR dashboard computes the brand dashboard's first three feeds |
| QsrDashboard.RotatorHiddenIffEmptyOverride | src/components/qsrDashboard.tsx:40-44 | the video rotator is hidden if and only if the videos feed is explicitly overridden with "" |
| EditorialCommon.ParamName | src/app/dashboard/editorial/EditorialClient.tsx:56-72 | every setting has a non-empty query name |
| EditorialCommon.ParamNameInjective | src/app/dashboard/editorial/EditorialClient.tsx:56-72 | different settings have different query names |
| EditorialCommon.OmitDefaults | src/app/dashboard/editorial/EditorialClient.tsx:160-166 | the settings link sets each parameter to the setting's decimal text exactly when the setting differs from its default, and `fullscreen=1` exactly when auto-fullscreen is on |
| EditorialCommon.OmitFirstDefaults | src/app/dashboard/editorial/EditorialClient.tsx:161-163 | the first three conditional sets write rotation, strip speed and card duration, and nothing else |
| EditorialCommon.DefaultsOmitted | src/app/dashboard/editorial/EditorialClient.tsx:27-34 | the defaults write an empty query |
| EditorialCommon.NumericParam | src/app/dashboard/editorial/EditorialClient.tsx:56-69 | an absent parameter gives no number, a present one gives `Number` of its value |
| EditorialCommon.NumericBack | src/app/dashboard/editorial/EditorialClient.tsx:56-69 | a number written only when it differs from its default reads back as itself, the default standing in when it was left out |
| EditorialCommon.JsRem | src/app/dashboard/editorial/EditorialClient.tsx:108 | JavaScript's `%` agrees with the mathematical remainder on non-negative operands and stays strictly between `-n` and `n` |
| EditorialCommon.NextIndex | src/app/dashboard/editorial/EditorialClient.tsx:155 | Next moves to the following brand, wrapping from the last to the first |
| EditorialCommon.PrevIndex | src/app/dashboard/editorial/EditorialClient.tsx:149 | Prev moves to the preceding brand, wrapping from the first to the last |
| EditorialCommon.PrevNextInverse | src/app/dashboard/editorial/EditorialClient.tsx:149-155 | Prev undoes Next and Next undoes Prev |
| EditorialCommon.BrandEntries | src/app/dashboard/editorial/EditorialClient.tsx:95 | one entry per configuration entry, in order, with its code and site configuration |
| EditorialCommon.Ticked | src/app/dashboard/editorial/EditorialClient.tsx:106-110 | a firing of the rotation interval changes neither the brands nor the settings |
| EditorialCommon.Ticks | src/app/dashboard/editorial/EditorialClient.tsx:106-110 | neither do `k` firings |
| EditorialCommon.CurrentBrand | src/app/dashboard/editorial/EditorialClient.tsx:119-121 | the loading screen shows exactly when there are no brands; otherwise the brand on show is one of the brands |
| EditorialCommon.Stepped | src/app/dashboard/editorial/EditorialClient.tsx:149-155 | Prev and Next change only the index: Next moves to the following brand and from the last to the first, Prev to the preceding one and from the first to the last |
| EditorialCommon.Loaded | src/app/dashboard/editorial/EditorialClient.tsx:86-98 | a failed load changes nothing; a load replaces the brands with one per configuration entry, in order, and keeps the index, the settings and the fullscreen flag |
| EditorialCommon.TransitionsKeepValid | src/app/dashboard/editorial/EditorialClient.tsx:95-155 | every transition keeps the index on a brand |
| EditorialCommon.TicksAdvance | src/app/dashboard/editorial/EditorialClient.tsx:106-110 | `k` firings of a running interval move the index `k` places on, modulo the number of brands |
| EditorialCommon.EveryBrandShown | src/app/dashboard/editorial/EditorialClient.tsx:106-110 | with the rotation running, every brand comes on show within as many firings as there are brands |
| EditorialCommon.PausedStays | src/app/dashboard/editorial/EditorialClient.tsx:107 | a rotation of zero or less never moves the index |
| EditorialClient.Init | src/app/dashboard/editorial/EditorialClient.tsx:55-73 | a parameter that is a number replaces its setting, and an absent or non-numeric one keeps it. A present `fullscreen` sets auto-fullscreen to whether it is "1" |
| EditorialClient.EditorialView.constructor | src/app/dashboard/editorial/EditorialClient.tsx:40-52 | the view starts with the defaults, no brands and index 0 |
| EditorialClient.EditorialView.InitFromUrl | src/app/dashboard/editorial/EditorialClient.tsx:55-73 | the effect changes only the settings, as `Init` |
| EditorialClient.EditorialView.FullscreenChanged | src/app/dashboard/editorial/EditorialClient.tsx:76-81 | the handler changes only the fullscreen flag |
| EditorialClient.EditorialView.LoadBrands | src/app/dashboard/editorial/EditorialClient.tsx:84-103 | the brands request changes the state as `Loaded` |
| EditorialClient.EditorialView.Tick | src/app/dashboard/editorial/EditorialClient.tsx:106-110 | a firing changes the state as `Ticked` |
| EditorialClient.EditorialView.Prev | src/app/dashboard/editorial/EditorialClient.tsx:149 | the Prev button steps back as `Stepped` |
| EditorialClient.EditorialView.Next | src/app/dashboard/editorial/EditorialClient.tsx:155 | the Next button steps forward as `Stepped` |
| EditorialClient.EditorialView.SetRotation | src/app/dashboard/editorial/EditorialClient.tsx:151 | the selector changes only the rotation |
| EditorialClient.EditorialView.OpenSettings | src/app/dashboard/editorial/EditorialClient.tsx:159-168 | the Settings button navigates to the settings link of the current settings |
| EditorialClient.LinkInitRoundTrip | src/app/dashboard/editorial/EditorialClient.tsx:55-73 | any settings written into the settings link are the settings a fresh dashboard reads back from it |
| EditorialClient.SavedSettingsApplied | src/app/dashboard/editorial/settings/SettingsClient.tsx:61-78 | the URL the settings form saves to sets up a fresh dashboard with exactly the saved settings, durations in milliseconds |
| EditorialClient.DefaultLink | src/app/dashboard/editorial/EditorialClient.tsx:159-167 | the defaults give the bare settings URL |
| EditorialPage.AtLeast | src/app/dashboard/editorial/page.tsx:52-80 | a URL number is taken only when it is at least the field's floor; otherwise the setting is kept |
| EditorialPage.LinkParams | src/app/dashboard/editorial/page.tsx:274-280 | the Settings button writes all five numbers, and `fullscreen=1` when auto-fullscreen is on or the page is fullscreen now |
| EditorialPage.EditorialDashboard.constructor | src/app/dashboard/editorial/page.tsx:32-46 | the page starts with the defaults, no brands and index 0 |
| EditorialPage.EditorialDashboard.InitFromUrl | src/app/dashboard/editorial/page.tsx:49-85 | the effect changes only the settings, as `Init` |
| EditorialPage.EditorialDashboard.FullscreenChanged | src/app/dashboard/editorial/page.tsx:88-94 | the handler changes only the fullscreen flag |
| EditorialPage.EditorialDashboard.LoadBrands | src/app/dashboard/editorial/page.tsx:124-157 | the brands request changes the state as `Loaded` |
| EditorialPage.EditorialDashboard.Tick | src/app/dashboard/editorial/page.tsx:160-174 | a firing changes the state as `Ticked` |
| EditorialPage.EditorialDashboard.Prev | src/app/dashboard/editorial/page.tsx:226 | the Prev button steps back |
| EditorialPage.EditorialDashboard.Next | src/app/dashboard/editorial/page.tsx:253 | the Next button steps forward |
| EditorialPage.EditorialDashboard.SetRotation | src/app/dashboard/editorial/page.tsx:237 | the selector changes only the rotation |
| EditorialPage.EditorialDashboard.OpenSettings | src/app/dashboard/editorial/page.tsx:273-282 | the Settings button navigates to the settings link of the current settings and fullscreen state |
| EditorialPage.InitKeepsInRange | src/app/dashboard/editorial/page.tsx:52-80 | out-of-range values are refused, so settings in range stay in range whatever the URL says |
| EditorialPage.DefaultsInRange | src/app/dashboard/editorial/page.tsx:32-36 | the initial settings are in range |
| EditorialPage.LinkInitRoundTrip | src/app/dashboard/editorial/page.tsx:274-282 | settings in range survive the settings link, and fullscreen comes back on when the page was fullscreen |
| EditorialPage.SavedSettingsApplied | src/app/dashboard/editorial/settings/SettingsClient.tsx:61-78 | the saved URL sets up this page with exactly the saved settings when the saved rotation is not negative and the strip speed is positive |
| EditorialPage.WholeSecondsBack | src/app/dashboard/editorial/settings/SettingsClient.tsx:47-74 | a whole-second duration at or above its floor survives the form's reading in seconds and writing in milliseconds |
| EditorialPage.SettingsUnchangedRoundTrip | src/app/dashboard/editorial/page.tsx:274-282 | opening the settings form from the page and saving it unchanged gives the page back its settings, when each duration is a whole number of seconds at or above the form's floor |
| SettingsClient.Max | src/app/dashboard/editorial/settings/SettingsClient.tsx:67 | `Math.max` is an upper bound of both arguments and equals one of them |
| SettingsClient.Seconds | src/app/dashboard/editorial/settings/SettingsClient.tsx:48 | the seconds are at least the floor. They are exactly the floor when the milliseconds round to at most the floor, and above it they are the milliseconds divided by 1000 and rounded to the nearest second |
| SettingsClient.SecondsParam | src/app/dashboard/editorial/settings/SettingsClient.tsx:47-57 | an absent or non-numeric parameter keeps the field; a numeric one sets it in seconds |
| SettingsClient.Init | src/app/dashboard/editorial/settings/SettingsClient.tsx:40-58 | a query with none of the six parameters leaves the form unchanged, and a numeric duration parameter never sets its field below the floor |
| SettingsClient.SaveUrl | src/app/dashboard/editorial/settings/SettingsClient.tsx:61-78 | the link is the editorial dashboard's path and `?`, followed by nothing exactly when no parameter is written |
| SettingsClient.SettingsForm.constructor | src/app/dashboard/editorial/settings/SettingsClient.tsx:32-37 | the form starts with the defaults, durations in seconds |
| SettingsClient.SettingsForm.InitFromUrl | src/app/dashboard/editorial/settings/SettingsClient.tsx:40-58 | the effect changes the form as `Init` |
| SettingsClient.SettingsForm.RestoreDefaults | src/app/dashboard/editorial/settings/SettingsClient.tsx:82-89 | Restore Defaults puts back the initial form |
| SettingsClient.SettingsForm.Save | src/app/dashboard/editorial/settings/SettingsClient.tsx:61-78 | Save navigates to `SaveUrl` of the form |
| SettingsClient.InitFields | src/app/dashboard/editorial/settings/SettingsClient.tsx:40-58 | a number replaces rotation and strip speed, and a duration read from the URL is never below its floor. A present `fullscreen` sets the box to whether it is "1"; absent parameters keep the fields |
| SettingsClient.RestoreThenSaveEmpty | src/app/dashboard/editorial/settings/SettingsClient.tsx:61-89 | saving the default form sets no parameter and navigates to the bare dashboard URL |
| SettingsClient.SaveOmitsDefaults | src/app/dashboard/editorial/settings/SettingsClient.tsx:64-76 | each of the six parameters is written if and only if its field differs from the default |
| SettingsClient.SecondsBack | src/app/dashboard/editorial/settings/SettingsClient.tsx:48-68 | whole seconds at or above the floor read back from their milliseconds unchanged |
| SettingsClient.SecondsParamBack | src/app/dashboard/editorial/settings/SettingsClient.tsx:47-68 | a duration written only when it differs from its default reads back as itself |
| SettingsClient.SaveInitRoundTrip | src/app/dashboard/editorial/settings/SettingsClient.tsx:40-78 | a form whose durations are at their floors or above is rebuilt exactly from the URL it saves to |
| AwardsGrid.Upcoming | src/app/dashboard/awards/AwardsGridClient.tsx:63-65 | the grid keeps exactly the awards whose date parses to an instant after now, and never adds one |
| AwardsGrid.UpcomingAppend | src/app/dashboard/awards/AwardsGridClient.tsx:63-65 | the filter commutes with concatenation, so the grid keeps the input order |
| AwardsGrid.UpcomingAll | src/app/dashboard/awards/AwardsGridClient.tsx:63-65 | when every award is upcoming the filter keeps them all |
| AwardsGrid.SubmissionOpen | src/app/dashboard/awards/AwardsGridClient.tsx:31-42 | no start date shows "Submission Closed". A start after now counts down to "Submission Open". A past, present or invalid start shows "Submission Open" |
| AwardsGrid.SubmissionClose | src/app/dashboard/awards/AwardsGridClient.tsx:44-55 | no end date shows "Submission Closed"; an end after now counts down to "Submission Closed"; any other end shows "Submission Closed" |
| AwardsGrid.SubmissionSettles | src/app/dashboard/awards/AwardsGridClient.tsx:31-55 | the closing column always settles on "Submission Closed", and the opening column settles on "Submission Open" exactly when a start date is given |
| AwardsGrid.FormatDate | src/app/dashboard/awards/AwardsGridClient.tsx:20-27 | a missing or empty date shows "" |
| AwardCountdown.NextAward | src/components/AwardCountdown.tsx:43-50 | at most one award is shown |
| AwardCountdown.NextAwardIsUpcoming | src/components/AwardCountdown.tsx:43-50 | the award shown is one of the upcoming awards, and one is shown exactly when some award is upcoming |
| AwardCountdown.NextAwardEarliest | src/components/AwardCountdown.tsx:43-50 | no upcoming award is earlier than the one shown |
| AwardCountdown.UpcomingAgrees | src/components/AwardCountdown.tsx:44-48 | on upcoming awards, whose dates all parse, the comparator's sign is the order of the timestamps |
| AwardCountdown.NextAwardFirstOfTies | src/components/AwardCountdown.tsx:45-50 | among upcoming awards sharing the earliest date, the first in the input is shown, because the sort is stable |
| Countdown.PartsOf | src/components/Countdown.tsx:23-26 | for a positive difference the label's days, hours below 24, and minutes and seconds below 60 account for the difference to within the last second |
| Countdown.DecomposesUnique | src/components/Countdown.tsx:23-26 | that decomposition is the only one within those bounds |
| Countdown.Format | src/components/Countdown.tsx:27 | the text is the four labelled quantities joined by single spaces |
| Countdown.FormatSplits | src/components/Countdown.tsx:27 | the text splits at its spaces into exactly the four labelled quantities |
| Countdown.UnitReadsBack | src/components/Countdown.tsx:27 | the number in each labelled quantity reads back with `Number` as the value displayed |
| Countdown.UnitHasNoSpace | src/components/Countdown.tsx:27 | a labelled non-negative quantity holds no space |
| Countdown.InitialText | src/components/Countdown.tsx:11 | the label starts with `done` when it is truthy, and "" otherwise |
| Countdown.Tick | src/components/Countdown.tsx:17-27 | a difference at most zero shows `done` (or "Ended") and stops. A positive one shows the formatted parts. NaN shows "NaNd NaNh NaNm NaNs" and keeps going |
| Countdown.Run | src/components/Countdown.tsx:11-28 | a label stops only when there is a target and some tick saw a difference of zero or less |
| Countdown.NoTargetNeverChanges | src/components/Countdown.tsx:14 | without a target the label keeps its initial text |
| Countdown.StoppedStays | src/components/Countdown.tsx:18-21 | once stopped, later ticks change nothing |
| Countdown.StoppedShowsDone | src/components/Countdown.tsx:18-21 | a stopped label shows `done`, or "Ended" without one |
| Stepper.Dec | src/components/Stepper.tsx:22 | "−" never goes below `min`, and gives `value - step` whenever that is at least `min` |
| Stepper.Inc | src/components/Stepper.tsx:23 | "+" never goes above `max`, and gives `value + step` whenever that is at most `max` |
| Stepper.StepsStayInRange | src/components/Stepper.tsx:22-23 | with a non-negative step, neither button moves a value in range out of it, and each moves only in its own direction |
| Stepper.StepsSaturate | src/components/Stepper.tsx:22-23 | at the bounds the buttons have no effect |
| Stepper.DecTimesClamps | src/components/Stepper.tsx:22 | pressing "−" `k` times lands on `max(min, value - k * step)` |
| VideoRotator.DigitRun | src/components/VideoRotator.tsx:113 | `\d+` takes the longest prefix of digits, and is non-empty when the text starts with a digit |
| VideoRotator.FindMatch | src/components/VideoRotator.tsx:113 | a match position is at or after the start, and "vimeo.com/" followed by a digit occurs there |
| VideoRotator.FindMatchLeftmost | src/components/VideoRotator.tsx:113 | the match found is the leftmost one, and none is found exactly when there is none |
| VideoRotator.ExtractVimeoId | src/components/VideoRotator.tsx:112-115 | the id is all digits |
| VideoRotator.ExtractVimeoIdNone | src/components/VideoRotator.tsx:112-115 | the id is "" exactly when no "vimeo.com/" is followed by a digit |
| VideoRotator.ExtractVimeoIdAt | src/components/VideoRotator.tsx:112-115 | at the leftmost match the id is the maximal non-empty digit run after "vimeo.com/" |
| VideoRotator.ExtractFromPageLink | src/components/VideoRotator.tsx:112-115 | for `https://vimeo.com/<digits><rest>` with `rest` not starting with a digit, the id is exactly those digits |
| VideoRotator.TextOf | src/components/VideoRotator.tsx:37-38 | a missing element gives "", otherwise its trimmed text |
| VideoRotator.Mapped | src/components/VideoRotator.tsx:35-39 | one video per feed item, in order |
| VideoRotator.KeepVimeo | src/components/VideoRotator.tsx:40 | the filter keeps exactly the videos whose link contains "vimeo.com", and adds none |
| VideoRotator.VimeoVideos | src/components/VideoRotator.tsx:35-40 | the rotation list holds exactly the mapped items with a Vimeo link |
| VideoRotator.KeepVimeoAppend | src/components/VideoRotator.tsx:40 | the filter commutes with concatenation, so feed order is kept |
| VideoRotator.LoadIntoHolds | src/components/VideoRotator.tsx:72-78 | after loading, a frame holds the video: the player URL of its id, or (when the link has no id) the frame is unchanged |
| VideoRotator.Rotator.constructor | src/components/VideoRotator.tsx:16-23 | no videos, the index at `startIndex`, frame A showing, nothing loaded, no frame active and no title |
| VideoRotator.Rotator.ShowInitial | src/components/VideoRotator.tsx:59-69 | frame A loads the current video and becomes active, the title is the current video's, and frame B preloads the next |
| VideoRotator.Rotator.Load | src/components/VideoRotator.tsx:35-44 | the list becomes the Vimeo videos of the feed. An empty list leaves the frames alone; otherwise the initial display is set up, and it is coherent from a fresh rotator |
| VideoRotator.Rotator.Advance | src/components/VideoRotator.tsx:82-95 | the index moves one place on modulo the number of videos, so the current video is the old next one, and the title follows it |
| VideoRotator.Rotator.Swap | src/components/VideoRotator.tsx:98-108 | the frames flip: the preloaded frame is shown, and the frame just hidden loads the given video |
| VideoRotator.Rotator.NextVideo | src/components/VideoRotator.tsx:81-109 | one step shows the old next video, the title and active flags follow, the hidden frame preloads the new next video, and the displayed state stays coherent |
| VideoRotator.IndexAfterAdvances | src/components/VideoRotator.tsx:82-83 | `k` steps move the index `k` places on, modulo the number of videos |
| VideoRotator.EveryVideoShown | src/components/VideoRotator.tsx:82-83 | every video is shown within as many steps as there are videos |
| UrlParams.Param | src/app/dashboard/editorial/EditorialClient.tsx:56-71 | `get` returns a value only when the query holds that name with it |
| UrlParams.ParamFirst | src/app/dashboard/editorial/EditorialClient.tsx:56-71 | `get` returns nothing exactly when the name is absent, and otherwise the first value |
| UrlParams.Without | src/app/dashboard/editorial/EditorialClient.tsx:161-166 | removing a name removes all its entries and leaves the other names alone |
| UrlParams.SetParam | src/app/dashboard/editorial/EditorialClient.tsx:161-166 | `set` makes the name read back its value and leaves the other names alone; a new name is appended |
| UrlParams.SetWhen | src/app/dashboard/editorial/EditorialClient.tsx:161-166 | a conditional `set` acts only when its condition holds |
| UrlParams.QueryString | src/app/dashboard/editorial/EditorialClient.tsx:167 | the query text is empty exactly when no parameter is set |
| JsText.ToLower | lib/GetAwards.ts:35 | `toLowerCase` lower-cases each character in place |
| JsText.ToUpper | src/app/all-active/page.tsx:74 | `toUpperCase` upper-cases each character in place |
| JsText.ToLowerFixpoint | lib/GetAwards.ts:35 | text without upper-case letters is unchanged |
| JsText.TrimStart | lib/GetAwards.ts:34 | trimming the start removes exactly the leading whitespace |
| JsText.TrimEnd | lib/GetAwards.ts:34 | trimming the end removes exactly the trailing whitespace |
| JsText.Trim | lib/GetAwards.ts:34 | the result neither starts nor ends with whitespace and is the substring left after the leading whitespace |
| JsText.TrimFixpoint | lib/GetAwards.ts:34 | text without surrounding whitespace is unchanged |
| JsText.NonSpaceAppend | lib/GetAwards.ts:33-34 | the non-whitespace text of a concatenation is that of its parts |
| JsText.TrimStartKeepsText | lib/GetAwards.ts:34 | trimming the start keeps every non-whitespace character |
| JsText.TrimEndKeepsText | lib/GetAwards.ts:34 | trimming the end keeps every non-whitespace character |
| JsText.TrimKeepsText | lib/GetAwards.ts:34 | `trim` keeps every non-whitespace character |
| JsText.ToLowerKeepsText | lib/GetAwards.ts:35 | lower-casing commutes with dropping whitespace |
| JsText.ContainsIff | lib/GetAwards.ts:236-237 | `includes` holds exactly when the text occurs at some position |
| JsText.ContainsEmpty | lib/GetAwards.ts:236-237 | every string includes "" |
| JsText.Split | lib/GetAwards.ts:40 | `split` gives at least one piece and no piece holds the separator |
| JsText.SplitJoin | lib/GetAwards.ts:40 | joining pieces without the separator and splitting gives the pieces back |
| JsText.JoinSplit | lib/GetAwards.ts:40 | splitting and joining again gives the text back |
| JsText.StripTrailingSlash | src/components/BrandDashboard.tsx:35 | `replace(/\/$/, "")` drops one trailing slash, and only when there is one |
| JsText.Or | lib/GetAwards.ts:176 | `a \|\| b` is `a` when truthy and `b` otherwise |
| JsNumber.ParseNumber | src/app/dashboard/editorial/EditorialClient.tsx:57 | `Number` reads the trimmed text: surrounding whitespace never changes the result |
| JsNumber.ParseTrimmed | src/app/dashboard/editorial/EditorialClient.tsx:57 | the empty string is 0, and text that is not a signed decimal integer is NaN |
| JsNumber.NatToString | src/app/dashboard/editorial/EditorialClient.tsx:161 | `String` of a natural number is a non-empty digit string of that value |
| JsNumber.IntToString | src/app/dashboard/editorial/EditorialClient.tsx:161 | `String` of an integer is non-empty, and digits only when non-negative |
| JsNumber.ParseIntToString | src/app/dashboard/editorial/EditorialClient.tsx:57-161 | `Number(String(n)) == n` for every integer |
| JsNumber.RoundDiv | src/app/dashboard/editorial/settings/SettingsClient.tsx:48 | `Math.round(x / d)` is the integer nearest `x / d`, halves rounding up |
| JsObject.Keys | src/app/api/all/active/route.ts:151 | `Object.keys` lists the keys in insertion order |
| JsObject.Get | src/app/api/all/active/route.ts:104 | a property is missing exactly when no entry has the key; otherwise an entry holds it |
| JsObject.GetUnique | lib/GetAwards.ts:88 | in an object without repeated keys, each entry's key reads that entry's value |
| JsObject.Values | src/app/all-active/page.tsx:153 | `Object.values` lists the values in insertion order |
| JsObject.Put | lib/GetAwards.ts:88 | assignment keeps an existing key's position and appends a new key |
| JsObject.PutGet | lib/GetAwards.ts:88 | after an assignment the key reads the new value and every other key is unchanged |
| JsObject.PutUnique | lib/GetAwards.ts:88 | assignment never duplicates a key |
| JsObject.PutAllGet | lib/GetAwards.ts:73-112 | after a run of assignments a key reads its last assigned value, or its old value if never assigned |
| JsObject.PutAllUnique | lib/GetAwards.ts:73-112 | a run of assignments never duplicates a key |
| JsObject.LastValue | lib/GetAwards.ts:73-112 | there is no last value exactly when no assignment names the key |
| JsObject.LastValueIsLast | lib/GetAwards.ts:73-112 | the last value comes from an assignment of that key |
| JsObject.LastValueAppend | lib/qsrAwards.ts:111 | later assignments win over earlier ones |
| JsObject.Assign | lib/qsrAwards.ts:111 | `Object.assign` reads a key from the source when the source has it, else from the target |
| StableSort.SortInPlace | lib/GetAwards.ts:249-253 | the in-place sort leaves the array holding the insertion sort of its old contents |
| StableSort.InsertAt | lib/GetAwards.ts:249-253 | one pass inserts element `i` into the sorted prefix and leaves the rest of the array alone |
| StableSort.SortedCopy | src/components/AwardCountdown.tsx:45-49 | sorting a copy gives the sort of the input, a permutation of it |
| StableSort.InsertPermutes | lib/GetAwards.ts:249-253 | insertion adds exactly the inserted element |
| StableSort.SortPermutes | lib/GetAwards.ts:249-253 | the sort is a permutation of its input |
| StableSort.SortSorted | lib/GetAwards.ts:249-253 | when the comparator agrees with an integer key, the result is in ascending key order |
| StableSort.SortStable | lib/GetAwards.ts:249-253 | elements with equal keys keep their input order |
| StableSort.SortMap | lib/qsrAwards.ts:114-120 | sorting commutes with a mapping the comparator cannot see |
| StableSort.WithKeyAppend | lib/GetAwards.ts:249-253 | the elements with one key split over a concatenation |

## Left out

- Network and storage I/O are parameters of the model: page fetches, `cheerio` selector queries, the GA4 reports, `DOMParser`, `localStorage` and `lib/mongodb.ts`. Each becomes a function or a record of results.
- `Promise.all` fan-out runs sequentially in input order. Its branches touch disjoint data, and the per-brand lemmas state that independence.
- A request reads the clock once. The source calls `Date.now()` several times in one request; the model passes one `now`.
- `Date` parsing, `toISOString`, `toLocaleDateString`, time zones and daylight saving, `new URL` resolution and `localeCompare` collation are parameters (`DateEnv` and friends). The midday TTL takes the local milliseconds of the day as its input.
- `Number(...)` accepts only optionally signed decimal integers, with "" giving 0. Fractions, exponents, hexadecimal and `Infinity` count as not a number.
- JavaScript enumerates integer-like object keys first. `JsObject` keeps plain insertion order for every key.
- URL percent-encoding is not modelled. A query string is its names and values joined by `=` and `&`.
- Case mapping covers ASCII letters only.
- Rendering is not modelled, nor are the timers that drive it (`setInterval`, `setTimeout`), fullscreen, wake lock, click zones or cursor hiding. Each timer firing is a method call.
- React state batching and effect re-runs are not modelled: each handler or effect is one method call that sees the latest state.
- Stepper: the model works on integers, not floating-point numbers, and does not model rounding of fractional steps.
- Countdown: the interval itself is not modelled. A run is the sequence of differences its ticks observe.
- VideoRotator: the title fade-out is immediate. Both iframes are assumed mounted. `startIndex` is a natural number. A second feed load while frame B is showing is not modelled.
- AwardsGrid.FormatDate: the contract states only that a missing or empty date gives "". The formatted text comes from the locale, which is a parameter.
- Countdown.DiffOf has no contract of its own. Its result is stated through `Countdown.Tick`.
- VideoRotator.LoadInto has no contract of its own. Its meaning is `VideoRotator.LoadIntoHolds`.
- EditorialPage.Init has no contract of its own. Its behaviour is stated by `EditorialPage.EditorialDashboard.InitFromUrl`, `EditorialPage.InitKeepsInRange` and `EditorialPage.LinkInitRoundTrip`.
- Active-now minimum interval: a comment in `src/app/api/active-now/route.ts` (line 14) calls it one second, but the constant is 10000 ms. The model uses 10000.
- `extractVimeoId` uses the regular expression `vimeo\.com\/(\d+)`. It matches the first `vimeo.com/` that is followed by a digit, which need not be the first `vimeo.com/` in the link. The model does the same.
- Not part of this model:
  - the Odometer components;
  - `TickerStrip`, `TickerCard` and `TopViews`, which use floating-point animation;
  - `WakeLockProvider`;
  - `qsrCountdown.tsx`, whose import path is malformed and whose filter is the awards grid's;
  - the per-brand `[brand]` routes and pages, the `active-*` pages and the json-provider route;
  - `sample-value`, which is random;
  - `LoadingPage`, the layouts and the settings page shell.
- AllActiveRoute.AllActiveCache.HandleGet: every GA4 call succeeds in the model. The source can reject the request when `runReport` fails (src/app/api/all/active/route.ts:107), when `runRealtimeReport` fails (line 123) or when the credentials fail to parse with `JSON.parse` (line 148). In the source such a rejection ends the GET while other brands' callbacks may already have written to the cache; the sequential model does not capture that partly updated cache.
- Console logging is not modelled, nor are HTTP headers beyond the status and body.
