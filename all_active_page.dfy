/** The all-brands statistics page: it turns the statistics route's answer
    into one row per brand (or per group's main brand when `grouped=true`),
    adds up the column totals and sorts a copy of the rows by name or by one
    of the four counts. */
module AllActivePage {
  import opened Wrappers
  import opened JsText
  import opened JsObject
  import opened UrlParams
  import opened BrandConfig
  import opened StableSort
  import AllActiveRoute

  type Metric = AllActiveRoute.Metric

  /** The URL parameters the page reads. */
  datatype PageParam = SortKey | OrderKey | GroupedKey | TableKey

  /** The page's `window.location.search`; `None` while rendering on the
      server, where there is no `window`. */
  type Search = Option<Query<PageParam>>

  /** The column a table is sorted by. */
  datatype SortBy = ByName | ByStat(metric: Metric)

  datatype SortParams = SortParams(sortBy: SortBy, sortAsc: bool)

  /** The count a sort parameter names, if it names one. */
  function StatNamed(s: string): (m: Option<Metric>)
    ensures m.Some? ==> AllActiveRoute.MetricName(m.value) == s
  {
    if s == "now" then Some(AllActiveRoute.Now)
    else if s == "today" then Some(AllActiveRoute.Today)
    else if s == "30" then Some(AllActiveRoute.Days30)
    else if s == "365" then Some(AllActiveRoute.Days365)
    else None
  }

  /** `getSortParams`. */
  function GetSortParams(search: Search): (r: SortParams)
    ensures search.None? ==> r == SortParams(ByStat(AllActiveRoute.Days365), false)
    ensures r.sortBy == ByName <==> search.Some? && Param(search.value, SortKey) == Some("name")
    ensures forall m: Metric :: m != AllActiveRoute.Days365 ==>
              (r.sortBy == ByStat(m) <==>
               search.Some? && Param(search.value, SortKey) == Some(AllActiveRoute.MetricName(m)))
    ensures r.sortAsc <==> search.Some? && ToLower(Param(search.value, OrderKey).GetOr("desc")) == "asc"
  {
    match search
    case None => SortParams(ByStat(AllActiveRoute.Days365), false)
    case Some(q) =>
      var rawSort := Param(q, SortKey);
      var order := ToLower(Param(q, OrderKey).GetOr("desc"));
      var sortBy :=
        if rawSort == Some("name") then ByName
        else if rawSort.Some? && StatNamed(rawSort.value).Some? then ByStat(StatNamed(rawSort.value).value)
        else ByStat(AllActiveRoute.Days365);
      SortParams(sortBy, order == "asc")
  }

  /** `getTableMode`: the table layout, unless switched off by `table` or on
      a window narrower than 768 pixels. */
  predicate GetTableMode(search: Search, innerWidth: int) {
    match search
    case None => true
    case Some(q) => Param(q, TableKey) != Some("0") && Param(q, TableKey) != Some("false") && innerWidth >= 768
  }

  /** When the table layout is on. */
  lemma TableModeCases(search: Search, innerWidth: int)
    ensures search.None? ==> GetTableMode(search, innerWidth)
    ensures search.Some? && innerWidth < 768 ==> !GetTableMode(search, innerWidth)
    ensures search.Some? && Param(search.value, TableKey) in {Some("0"), Some("false")} ==> !GetTableMode(search, innerWidth)
    ensures search.Some? && Param(search.value, TableKey).None? && innerWidth >= 768 ==> GetTableMode(search, innerWidth)
  {
  }

  /** `getBrandMain`: the main brand of the brand's group, or the brand itself
      when it has no group or its group is unknown. */
  function GetBrandMain(props: seq<(string, BrandProperty)>, groups: seq<(string, GroupInfo)>, code: string): (r: string)
    ensures r == code || exists g :: Get(groups, g).Some? && Get(groups, g).value.main == r
    ensures Truthy(GroupOf(props, code)) && Get(groups, GroupOf(props, code).value).Some? ==>
              r == Get(groups, GroupOf(props, code).value).value.main
    ensures !Truthy(GroupOf(props, code)) || Get(groups, GroupOf(props, code).value).None? ==> r == code
  {
    var groupKey := GroupOf(props, code);
    if Truthy(groupKey) then
      match Get(groups, groupKey.value)
      case Some(g) =>
        assert Get(groups, groupKey.value).Some? && Get(groups, groupKey.value).value.main == g.main;
        g.main
      case None => code
    else code
  }

  /** `getBrandName`: the brand's own name (its upper-cased code when it is
      not configured), except in the grouped view, where a brand of a known
      group shows the group's name. */
  function GetBrandName(props: seq<(string, BrandProperty)>, groups: seq<(string, GroupInfo)>,
                        code: string, grouped: bool): (r: string)
    ensures !grouped || !Truthy(GroupOf(props, code)) ==>
              r == if Get(props, code).Some? then Get(props, code).value.name else ToUpper(code)
    ensures grouped && Truthy(GroupOf(props, code)) && Get(groups, GroupOf(props, code).value).Some? ==>
              r == Get(groups, GroupOf(props, code).value).value.name
    ensures grouped && Truthy(GroupOf(props, code)) && Get(groups, GroupOf(props, code).value).None? ==>
              r == Get(props, code).value.name
  {
    var brand := Get(props, code);
    var own := if brand.Some? then brand.value.name else ToUpper(code);
    if !grouped then own
    else
      var groupKey := if brand.Some? then brand.value.group else None;
      if Truthy(groupKey) then
        match Get(groups, groupKey.value)
        case Some(g) => g.name
        case None =>
          var main := Get(props, GetBrandMain(props, groups, code));
          if main.Some? then main.value.name else ToUpper(code)
      else own
  }

  /** The fallback logo. */
  const DefaultImage: string := "logo/cmg.png"

  /** Whether a brand's configuration carries a non-empty image. */
  predicate HasImage(props: seq<(string, BrandProperty)>, code: string) {
    Get(props, code).Some? && Truthy(Get(props, code).value.image)
  }

  /** `getBrandImage`: the brand's own image; failing that, in the grouped
      view, the image of its group's main brand; failing that, the default. */
  function GetBrandImage(props: seq<(string, BrandProperty)>, groups: seq<(string, GroupInfo)>,
                         code: string, grouped: bool): (r: string)
    ensures r != ""
    ensures r == DefaultImage || exists c :: Get(props, c).Some? && Get(props, c).value.image == Some(r)
    ensures HasImage(props, code) ==> r == Get(props, code).value.image.value
    ensures !HasImage(props, code) && grouped && Truthy(GroupOf(props, code))
            && HasImage(props, GetBrandMain(props, groups, code)) ==>
              r == Get(props, GetBrandMain(props, groups, code)).value.image.value
    ensures !HasImage(props, code) && !(grouped && Truthy(GroupOf(props, code))
            && HasImage(props, GetBrandMain(props, groups, code))) ==>
              r == DefaultImage
  {
    var brand := Get(props, code);
    if brand.Some? && Truthy(brand.value.image) then
      assert Get(props, code).Some? && Get(props, code).value.image == Some(brand.value.image.value);
      brand.value.image.value
    else
      var main: Option<string> :=
        if grouped && brand.Some? && Truthy(brand.value.group) then
          Some(match Get(groups, brand.value.group.value) case Some(g) => g.main case None => code)
        else None;
      var mainBrand := if main.Some? then Get(props, main.value) else None;
      if mainBrand.Some? && Truthy(mainBrand.value.image) then
        assert Get(props, main.value).Some? && Get(props, main.value).value.image == Some(mainBrand.value.image.value);
        mainBrand.value.image.value
      else DefaultImage
  }

  /** Two brands of the same known group share their main brand and, in the
      grouped view, their display name. */
  lemma SameGroupSameDisplay(props: seq<(string, BrandProperty)>, groups: seq<(string, GroupInfo)>,
                             c1: string, c2: string)
    requires Truthy(GroupOf(props, c1)) && GroupOf(props, c1) == GroupOf(props, c2)
    requires Get(groups, GroupOf(props, c1).value).Some?
    ensures GetBrandMain(props, groups, c1) == GetBrandMain(props, groups, c2)
    ensures GetBrandName(props, groups, c1, true) == GetBrandName(props, groups, c2, true)
            == Get(groups, GroupOf(props, c1).value).value.name
  {
  }

  /** A brand outside any group shows the same name in both views, and the
      ungrouped view always shows the brand's own name or its upper-cased code. */
  lemma UngroupedName(props: seq<(string, BrandProperty)>, groups: seq<(string, GroupInfo)>, code: string)
    ensures !Truthy(GroupOf(props, code)) ==>
              GetBrandName(props, groups, code, true) == GetBrandName(props, groups, code, false)
    ensures GetBrandName(props, groups, code, false) ==
              if Get(props, code).Some? then Get(props, code).value.name else ToUpper(code)
    ensures !Truthy(GroupOf(props, code)) ==> GetBrandMain(props, groups, code) == code
  {
  }

  /** The image falls back to the main brand's only in the grouped view. */
  lemma ImageFallbacks(props: seq<(string, BrandProperty)>, groups: seq<(string, GroupInfo)>, code: string)
    ensures Get(props, code).Some? && Truthy(Get(props, code).value.image) ==>
              GetBrandImage(props, groups, code, true) == GetBrandImage(props, groups, code, false)
              == Get(props, code).value.image.value
    ensures (Get(props, code).None? || !Truthy(Get(props, code).value.image)) ==>
              GetBrandImage(props, groups, code, false) == DefaultImage
    ensures Get(props, code).None? ==> GetBrandImage(props, groups, code, true) == DefaultImage
    ensures Get(props, code).Some? && !Truthy(Get(props, code).value.image) && Truthy(Get(props, code).value.group) ==>
              GetBrandImage(props, groups, code, true) ==
                var main := Get(props, GetBrandMain(props, groups, code));
                if main.Some? && Truthy(main.value.image) then main.value.image.value else DefaultImage
  {
  }

  /** In the grouped view, two brands of the same known group that have no
      image of their own show the same image: their main brand's, or the
      default. */
  lemma SameGroupSameImage(props: seq<(string, BrandProperty)>, groups: seq<(string, GroupInfo)>,
                           c1: string, c2: string)
    requires Truthy(GroupOf(props, c1)) && GroupOf(props, c1) == GroupOf(props, c2)
    requires Get(groups, GroupOf(props, c1).value).Some?
    requires !HasImage(props, c1) && !HasImage(props, c2)
    ensures GetBrandImage(props, groups, c1, true) == GetBrandImage(props, groups, c2, true)
  {
  }

  /* ---------------- Rows ---------------- */

  /** One row's four counts. */
  datatype Stats = Stats(now: int, today: int, d30: int, d365: int)

  const ZeroStats: Stats := Stats(0, 0, 0, 0)

  function Add(a: Stats, b: Stats): Stats {
    Stats(a.now + b.now, a.today + b.today, a.d30 + b.d30, a.d365 + b.d365)
  }

  function StatValue(s: Stats, m: Metric): int {
    match m
    case Now => s.now
    case Today => s.today
    case Days30 => s.d30
    case Days365 => s.d365
  }

  /** A table row: the brand code, its counts and its group key. */
  datatype Row = Row(brand: string, stats: Stats, group: Option<string>)

  /** The row of one brand of the route's answer; a `null` (NaN) count is 0. */
  function RowOf(props: seq<(string, BrandProperty)>, code: string, s: AllActiveRoute.BrandStats): (r: Row)
    ensures r.brand == code && r.group == GroupOf(props, code)
    ensures r.stats.now == (if s.now.Some? then s.now.value else 0)
    ensures r.stats.today == (if s.today.Some? then s.today.value else 0)
    ensures r.stats.d30 == (if s.d30.Some? then s.d30.value else 0)
    ensures r.stats.d365 == (if s.d365.Some? then s.d365.value else 0)
  {
    Row(code, Stats(s.now.GetOr(0), s.today.GetOr(0), s.d30.GetOr(0), s.d365.GetOr(0)), GroupOf(props, code))
  }

  /** The rows of the route's `data` object, one per key in key order. */
  function RowsOf(props: seq<(string, BrandProperty)>, data: seq<(string, AllActiveRoute.BrandStats)>): (rows: seq<Row>)
    ensures |rows| == |data|
    ensures forall i :: 0 <= i < |data| ==> rows[i] == RowOf(props, data[i].0, data[i].1)
  {
    seq(|data|, i requires 0 <= i < |data| => RowOf(props, data[i].0, data[i].1))
  }

  /** The sum of the rows' counts. */
  function SumStats(rows: seq<Row>): Stats {
    if rows == [] then ZeroStats else Add(rows[0].stats, SumStats(rows[1..]))
  }

  lemma {:induction false} SumStatsAppend(rows: seq<Row>, r: Row)
    ensures SumStats(rows + [r]) == Add(SumStats(rows), r.stats)
  {
    if rows != [] {
      assert (rows + [r])[1..] == rows[1..] + [r];
      SumStatsAppend(rows[1..], r);
    }
  }

  lemma SumStatsLast(rows: seq<Row>)
    requires rows != []
    ensures SumStats(rows) == Add(SumStats(rows[..|rows| - 1]), rows[|rows| - 1].stats)
  {
    assert rows == rows[..|rows| - 1] + [rows[|rows| - 1]];
    SumStatsAppend(rows[..|rows| - 1], rows[|rows| - 1]);
  }

  /* ---------------- Grouping ---------------- */

  /** The key a row is grouped under: its main brand when it has a group. */
  function MainOf(props: seq<(string, BrandProperty)>, groups: seq<(string, GroupInfo)>, row: Row): string {
    if Truthy(row.group) then GetBrandMain(props, groups, row.brand) else row.brand
  }

  /** The entry for `main` after adding `row`: the counts so far (zero, and
      the row's group, on first sight) plus the row's counts. */
  function Added(acc: seq<(string, Row)>, main: string, row: Row): Row {
    var entry := match Get(acc, main) case Some(e) => e case None => Row(main, ZeroStats, row.group);
    entry.(stats := Add(entry.stats, row.stats))
  }

  /** One `forEach` step of the grouping. */
  function GroupStep(props: seq<(string, BrandProperty)>, groups: seq<(string, GroupInfo)>,
                     acc: seq<(string, Row)>, row: Row): seq<(string, Row)>
  {
    var main := MainOf(props, groups, row);
    Put(acc, main, Added(acc, main, row))
  }

  /** `groupedRows` after the rows, the first one first. */
  function GroupAcc(props: seq<(string, BrandProperty)>, groups: seq<(string, GroupInfo)>, rows: seq<Row>): (r: seq<(string, Row)>)
    ensures |r| <= |rows|
  {
    if rows == [] then []
    else GroupStep(props, groups, GroupAcc(props, groups, rows[..|rows| - 1]), rows[|rows| - 1])
  }

  /** The rows grouped under `main`, in order. */
  function Members(props: seq<(string, BrandProperty)>, groups: seq<(string, GroupInfo)>,
                   rows: seq<Row>, main: string): seq<Row>
  {
    if rows == [] then []
    else
      var init := Members(props, groups, rows[..|rows| - 1], main);
      var last := rows[|rows| - 1];
      if MainOf(props, groups, last) == main then init + [last] else init
  }

  /** Each entry of `groupedRows` is the row of one main brand whose counts are
      the sums of its members' and whose group is its first member's; a main
      brand with no members has no entry. */
  lemma {:induction false} GroupAccGet(props: seq<(string, BrandProperty)>, groups: seq<(string, GroupInfo)>,
                                      rows: seq<Row>, main: string)
    ensures var ms := Members(props, groups, rows, main);
            Get(GroupAcc(props, groups, rows), main) ==
              if ms == [] then None else Some(Row(main, SumStats(ms), ms[0].group))
  {
    if rows != [] {
      var init, last := rows[..|rows| - 1], rows[|rows| - 1];
      var acc := GroupAcc(props, groups, init);
      var k := MainOf(props, groups, last);
      var entry := Added(acc, k, last);
      assert GroupAcc(props, groups, rows) == Put(acc, k, entry);
      PutGet(acc, k, entry, main);
      GroupAccGet(props, groups, init, main);
      if k == main {
        var ms0 := Members(props, groups, init, main);
        assert Members(props, groups, rows, main) == ms0 + [last];
        SumStatsAppend(ms0, last);
        if ms0 != [] {
          assert (ms0 + [last])[0] == ms0[0];
        }
      }
    }
  }

  /** A main brand has members exactly when some row is grouped under it. */
  lemma {:induction false} MembersEmpty(props: seq<(string, BrandProperty)>, groups: seq<(string, GroupInfo)>,
                                       rows: seq<Row>, main: string)
    ensures Members(props, groups, rows, main) == [] <==>
              forall i :: 0 <= i < |rows| ==> MainOf(props, groups, rows[i]) != main
  {
    if rows != [] {
      var init := rows[..|rows| - 1];
      MembersEmpty(props, groups, init, main);
      assert forall i :: 0 <= i < |init| ==> init[i] == rows[i];
    }
  }

  /** The grouped view has a row for a main brand exactly when some row is
      grouped under it, and that row is labelled with the main brand. */
  lemma GroupAccHas(props: seq<(string, BrandProperty)>, groups: seq<(string, GroupInfo)>,
                    rows: seq<Row>, main: string)
    ensures Get(GroupAcc(props, groups, rows), main).Some? <==>
              exists i :: 0 <= i < |rows| && MainOf(props, groups, rows[i]) == main
    ensures Get(GroupAcc(props, groups, rows), main).Some? ==>
              Get(GroupAcc(props, groups, rows), main).value.brand == main
  {
    GroupAccGet(props, groups, rows, main);
    MembersEmpty(props, groups, rows, main);
  }

  /** The grouped view never has two rows for the same main brand. */
  lemma {:induction false} GroupAccUnique(props: seq<(string, BrandProperty)>, groups: seq<(string, GroupInfo)>,
                                         rows: seq<Row>)
    ensures UniqueKeys(GroupAcc(props, groups, rows))
  {
    if rows != [] {
      var init, last := rows[..|rows| - 1], rows[|rows| - 1];
      var acc := GroupAcc(props, groups, init);
      var k := MainOf(props, groups, last);
      GroupAccUnique(props, groups, init);
      PutUnique(acc, k, Added(acc, k, last));
    }
  }

  lemma ValuesCons<V>(e: (string, V), m: seq<(string, V)>)
    ensures Values([e] + m) == [e.1] + Values(m)
  {
    assert ([e] + m)[1..] == m;
  }

  lemma SumStatsCons(r: Row, rows: seq<Row>)
    ensures SumStats([r] + rows) == Add(r.stats, SumStats(rows))
  {
    assert ([r] + rows)[1..] == rows;
  }

  /** The counts stored under `k`, zero when there are none. */
  function HeldStats(m: seq<(string, Row)>, k: string): Stats {
    match Get(m, k) case Some(e) => e.stats case None => ZeroStats
  }

  lemma AddShift(h: Stats, a: Stats, b: Stats, x: Stats, y: Stats)
    requires Add(a, x) == Add(b, y)
    ensures Add(Add(h, a), x) == Add(Add(h, b), y)
  {
    assert a.now + x.now == b.now + y.now && a.today + x.today == b.today + y.today;
    assert a.d30 + x.d30 == b.d30 + y.d30 && a.d365 + x.d365 == b.d365 + y.d365;
  }

  /** The sum of the counts of an object's rows. */
  function SumValues(m: seq<(string, Row)>): Stats {
    if m == [] then ZeroStats else Add(m[0].1.stats, SumValues(m[1..]))
  }

  lemma {:induction false} SumValuesIsSum(m: seq<(string, Row)>)
    ensures SumStats(Values(m)) == SumValues(m)
  {
    if m != [] {
      assert m == [m[0]] + m[1..];
      ValuesCons(m[0], m[1..]);
      SumStatsCons(m[0].1, Values(m[1..]));
      SumValuesIsSum(m[1..]);
    }
  }

  /** The sum over an object's rows after `obj[k] = v`: `v` takes the
      place of what `k` held, or is added when `k` was new. */
  lemma {:induction false} PutSum(m: seq<(string, Row)>, k: string, v: Row)
    ensures Add(SumValues(Put(m, k, v)), HeldStats(m, k)) == Add(SumValues(m), v.stats)
  {
    if m != [] {
      var rest := m[1..];
      var h := m[0].1.stats;
      if m[0].0 == k {
        assert Put(m, k, v) == [(k, v)] + rest;
        assert ([(k, v)] + rest)[1..] == rest;
        AddShift(SumValues(rest), v.stats, h, h, v.stats);
      } else {
        var put := Put(rest, k, v);
        assert Put(m, k, v) == [m[0]] + put;
        assert ([m[0]] + put)[1..] == put;
        assert HeldStats(m, k) == HeldStats(rest, k);
        PutSum(rest, k, v);
        AddShift(h, SumValues(put), SumValues(rest), HeldStats(rest, k), v.stats);
      }
    }
  }

  lemma AddCancel(a: Stats, h: Stats, x: Stats, l: Stats)
    requires Add(a, h) == Add(x, Add(h, l))
    ensures a == Add(x, l)
  {
    assert a.now == x.now + l.now && a.today == x.today + l.today;
    assert a.d30 == x.d30 + l.d30 && a.d365 == x.d365 + l.d365;
  }

  /** One grouping step adds the row's counts to the total. */
  lemma StepTotals(acc: seq<(string, Row)>, main: string, row: Row)
    ensures SumValues(Put(acc, main, Added(acc, main, row))) == Add(SumValues(acc), row.stats)
  {
    var e := Added(acc, main, row);
    var held := HeldStats(acc, main);
    assert e.stats == Add(held, row.stats);
    PutSum(acc, main, e);
    AddCancel(SumValues(Put(acc, main, e)), held, SumValues(acc), row.stats);
  }

  lemma {:induction false} GroupAccTotals(props: seq<(string, BrandProperty)>, groups: seq<(string, GroupInfo)>,
                                         rows: seq<Row>)
    ensures SumValues(GroupAcc(props, groups, rows)) == SumStats(rows)
  {
    if rows != [] {
      var init, last := rows[..|rows| - 1], rows[|rows| - 1];
      GroupAccTotals(props, groups, init);
      StepTotals(GroupAcc(props, groups, init), MainOf(props, groups, last), last);
      SumStatsLast(rows);
    }
  }

  /** Grouping moves counts between rows without losing or adding any: the
      four column totals are the same grouped and ungrouped. */
  lemma GroupedTotals(props: seq<(string, BrandProperty)>, groups: seq<(string, GroupInfo)>, rows: seq<Row>)
    ensures SumStats(Values(GroupAcc(props, groups, rows))) == SumStats(rows)
  {
    GroupAccTotals(props, groups, rows);
    SumValuesIsSum(GroupAcc(props, groups, rows));
  }

  /** The rows the page shows: grouped when `grouped=true`. */
  function ShownRows(props: seq<(string, BrandProperty)>, groups: seq<(string, GroupInfo)>,
                     data: seq<(string, AllActiveRoute.BrandStats)>, grouped: bool): (r: seq<Row>)
    ensures !grouped ==> r == RowsOf(props, data)
    ensures |r| <= |data|
    ensures SumStats(r) == SumStats(RowsOf(props, data))
  {
    var rows := RowsOf(props, data);
    if grouped then GroupedTotals(props, groups, rows); Values(GroupAcc(props, groups, rows)) else rows
  }

  /** `params.get("grouped") === "true"`. */
  predicate IsGrouped(search: Search) {
    search.Some? && Param(search.value, GroupedKey) == Some("true")
  }

  /* ---------------- Sorting ---------------- */

  /** The comparator of a count column: ascending or descending. */
  function StatCmp(m: Metric, asc: bool): (Row, Row) -> int {
    (a: Row, b: Row) => if asc then StatValue(a.stats, m) - StatValue(b.stats, m)
                        else StatValue(b.stats, m) - StatValue(a.stats, m)
  }

  /** The key a count column is ordered by. */
  function StatKey(m: Metric, asc: bool): Row -> int {
    (r: Row) => if asc then StatValue(r.stats, m) else -StatValue(r.stats, m)
  }

  /** The comparator of the name column; `collate` is `localeCompare`. */
  function NameCmp(props: seq<(string, BrandProperty)>, groups: seq<(string, GroupInfo)>, grouped: bool,
                   asc: bool, collate: (string, string) -> int): (Row, Row) -> int
  {
    (a: Row, b: Row) =>
      var nameA := GetBrandName(props, groups, a.brand, grouped);
      var nameB := GetBrandName(props, groups, b.brand, grouped);
      if asc then collate(nameA, nameB) else collate(nameB, nameA)
  }

  /** The comparator the page sorts with. */
  function Comparator(props: seq<(string, BrandProperty)>, groups: seq<(string, GroupInfo)>, grouped: bool,
                      p: SortParams, collate: (string, string) -> int): (c: (Row, Row) -> int)
    ensures p.sortBy.ByStat? ==>
              forall a: Row, b: Row :: c(a, b) == StatKey(p.sortBy.metric, p.sortAsc)(a) - StatKey(p.sortBy.metric, p.sortAsc)(b)
    ensures p.sortBy == ByName ==>
              forall a: Row, b: Row :: c(a, b) ==
                var nameA := GetBrandName(props, groups, a.brand, grouped);
                var nameB := GetBrandName(props, groups, b.brand, grouped);
                if p.sortAsc then collate(nameA, nameB) else collate(nameB, nameA)
  {
    match p.sortBy
    case ByName => NameCmp(props, groups, grouped, p.sortAsc, collate)
    case ByStat(m) => StatCmp(m, p.sortAsc)
  }

  /** A count sort orders the rows by that count, descending unless
      ascending was asked for, keeps every row and keeps rows with equal
      counts in their order. */
  lemma StatSortCorrect(rows: seq<Row>, m: Metric, asc: bool, k: int)
    ensures multiset(Sort(rows, StatCmp(m, asc))) == multiset(rows)
    ensures asc ==> forall i, j :: 0 <= i < j < |rows| ==>
              StatValue(Sort(rows, StatCmp(m, asc))[i].stats, m) <= StatValue(Sort(rows, StatCmp(m, asc))[j].stats, m)
    ensures !asc ==> forall i, j :: 0 <= i < j < |rows| ==>
              StatValue(Sort(rows, StatCmp(m, asc))[i].stats, m) >= StatValue(Sort(rows, StatCmp(m, asc))[j].stats, m)
    ensures WithKey(Sort(rows, StatCmp(m, asc)), StatKey(m, asc), k) == WithKey(rows, StatKey(m, asc), k)
  {
    var cmp, key := StatCmp(m, asc), StatKey(m, asc);
    SortPermutes(rows, cmp);
    SortSorted(rows, cmp, key);
    SortStable(rows, cmp, key, k);
    var s := Sort(rows, cmp);
    assert forall i, j :: 0 <= i < j < |s| ==> key(s[i]) <= key(s[j]);
  }

  /* ---------------- The page ---------------- */

  /** How one `fetchAllStats` call ends: a non-OK response, a failure while
      reading the body, or the route's `data` object. */
  datatype FetchOutcome = NotOk | Failed | Body(data: seq<(string, AllActiveRoute.BrandStats)>)

  /** The page's state. */
  datatype PageState = PageState(rows: seq<Row>, loading: bool, tableMode: bool)

  /** The state after a fetch: a non-OK response changes nothing (the page
      keeps loading), a failure only ends the loading, a body replaces the rows. */
  function Fetched(st: PageState, outcome: FetchOutcome, search: Search,
                   props: seq<(string, BrandProperty)>, groups: seq<(string, GroupInfo)>): (r: PageState)
    ensures r.tableMode == st.tableMode
    ensures outcome.NotOk? ==> r == st
    ensures outcome.Failed? ==> r == st.(loading := false)
    ensures outcome.Body? ==> r == PageState(ShownRows(props, groups, outcome.data, IsGrouped(search)), false, st.tableMode)
  {
    match outcome
    case NotOk => st
    case Failed => st.(loading := false)
    case Body(data) => st.(rows := ShownRows(props, groups, data, IsGrouped(search)), loading := false)
  }

  /** The totals over the rows shown. */
  function Totals(rows: seq<Row>): Stats {
    SumStats(rows)
  }

  /** What the page computes on each render: the totals and the sorted copy. */
  class AllStatsPage {
    var rows: seq<Row>
    var loading: bool
    var tableMode: bool

    function State(): PageState
      reads this
    {
      PageState(rows, loading, tableMode)
    }

    constructor(search: Search, innerWidth: int)
      ensures State() == PageState([], true, GetTableMode(search, innerWidth))
    {
      rows := [];
      loading := true;
      tableMode := GetTableMode(search, innerWidth);
    }

    /** The `resize` listener. */
    method Resize(search: Search, innerWidth: int)
      modifies this
      ensures State() == old(State()).(tableMode := GetTableMode(search, innerWidth))
    {
      tableMode := GetTableMode(search, innerWidth);
    }

    /** `fetchAllStats`. */
    method FetchAllStats(outcome: FetchOutcome, search: Search,
                         props: seq<(string, BrandProperty)>, groups: seq<(string, GroupInfo)>)
      modifies this
      ensures State() == Fetched(old(State()), outcome, search, props, groups)
    {
      match outcome
      case NotOk =>
        return;
      case Failed =>
        loading := false;
      case Body(data) =>
        var newRows := BuildRows(props, data);
        if IsGrouped(search) {
          newRows := GroupRows(props, groups, newRows);
        }
        rows := newRows;
        loading := false;
    }

    /** The totals `reduce`. */
    method ComputeTotals() returns (totals: Stats)
      ensures totals == Totals(rows)
    {
      totals := ZeroStats;
      var i := 0;
      while i < |rows|
        invariant 0 <= i <= |rows|
        invariant totals == SumStats(rows[..i])
      {
        SumStatsAppend(rows[..i], rows[i]);
        assert rows[..i + 1] == rows[..i] + [rows[i]];
        totals := Stats(totals.now + rows[i].stats.now, totals.today + rows[i].stats.today,
                        totals.d30 + rows[i].stats.d30, totals.d365 + rows[i].stats.d365);
        i := i + 1;
      }
      assert rows[..i] == rows;
    }

    /** The sorted copy the table renders. */
    method SortedRows(search: Search, props: seq<(string, BrandProperty)>, groups: seq<(string, GroupInfo)>,
                      collate: (string, string) -> int) returns (sorted: seq<Row>)
      ensures sorted == Sort(rows, Comparator(props, groups, IsGrouped(search), GetSortParams(search), collate))
    {
      var p := GetSortParams(search);
      sorted := SortedCopy(rows, Comparator(props, groups, IsGrouped(search), p, collate));
    }
  }

  /** The row-building loop. */
  method BuildRows(props: seq<(string, BrandProperty)>, data: seq<(string, AllActiveRoute.BrandStats)>)
    returns (newRows: seq<Row>)
    ensures newRows == RowsOf(props, data)
  {
    newRows := [];
    var i := 0;
    while i < |data|
      invariant 0 <= i <= |data|
      invariant newRows == RowsOf(props, data[..i])
    {
      var code := data[i].0;
      var stats := data[i].1;
      newRows := newRows + [Row(code, Stats(stats.now.GetOr(0), stats.today.GetOr(0), stats.d30.GetOr(0),
                                             stats.d365.GetOr(0)), GroupOf(props, code))];
      i := i + 1;
    }
    assert data[..i] == data;
  }

  lemma GroupAccSnoc(props: seq<(string, BrandProperty)>, groups: seq<(string, GroupInfo)>, rows: seq<Row>, i: nat)
    requires i < |rows|
    ensures GroupAcc(props, groups, rows[..i + 1]) == GroupStep(props, groups, GroupAcc(props, groups, rows[..i]), rows[i])
  {
    assert rows[..i + 1][..i] == rows[..i];
  }

  /** The grouping `forEach` and `Object.values`. */
  method GroupRows(props: seq<(string, BrandProperty)>, groups: seq<(string, GroupInfo)>, rows: seq<Row>)
    returns (grouped: seq<Row>)
    ensures grouped == Values(GroupAcc(props, groups, rows))
  {
    var groupedRows: seq<(string, Row)> := [];
    var i := 0;
    while i < |rows|
      invariant 0 <= i <= |rows|
      invariant groupedRows == GroupAcc(props, groups, rows[..i])
    {
      var row := rows[i];
      var mainBrand := if Truthy(row.group) then GetBrandMain(props, groups, row.brand) else row.brand;
      var entry := Get(groupedRows, mainBrand);
      var current := if entry.None? then Row(mainBrand, ZeroStats, row.group) else entry.value;
      assert current.(stats := Add(current.stats, row.stats)) == Added(groupedRows, mainBrand, row);
      groupedRows := Put(groupedRows, mainBrand, current.(stats := Add(current.stats, row.stats)));
      GroupAccSnoc(props, groups, rows, i);
      i := i + 1;
    }
    assert rows[..i] == rows;
    grouped := Values(groupedRows);
  }
}
