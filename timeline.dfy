/**
 * The vertical timeline's data pipeline: filter the publications, expand each
 * one's `publish_dates` into dated points, sort the points, bucket them by day,
 * week or month, and list the values the filter menus offer.
 *
 * Dates are milliseconds since the epoch. Parsing a date string and the
 * date-fns bucket keys are library calls and come in as a `Calendar`.
 */
module Timeline {
  import opened Wrappers
  import opened Seqs
  import opened Text
  import opened Records
  import opened Grouping

  /**
   * `new Date(s)` (`None` for an invalid date, whose `NaN` time fails every
   * comparison) and the `format(...)` keys of the three view modes.
   */
  datatype Calendar = Calendar(parse: string -> Option<int>,
                               dayKey: int -> string, weekKey: int -> string, monthKey: int -> string)

  /** The filter menus' selections and the search box. */
  datatype Filters = Filters(alignments: seq<string>, directorates: seq<string>,
                             divisions: seq<string>, query: string)

  const NoFilters := Filters([], [], [], "")

  /** An empty selection admits everything. */
  predicate Admits(selection: seq<string>, value: string) {
    |selection| == 0 || value in selection
  }

  /** An empty query matches everything; otherwise a case-insensitive substring test on the title. */
  predicate MatchesQuery(title: string, query: string) {
    query == "" || Includes(Lower(title), Lower(query))
  }

  /** The four filters, all of which must pass; blank columns compare as "Unknown". */
  predicate PassesFilters(p: Publication, f: Filters) {
    && Admits(f.alignments, Category(p, Alignment))
    && Admits(f.directorates, Category(p, Directorate))
    && Admits(f.divisions, Category(p, Division))
    && MatchesQuery(p.title, f.query)
  }

  /**
   * The filters compose: a publication passes them all exactly when it passes
   * each one set alone, and with nothing set every publication passes.
   */
  lemma FiltersConjoin(p: Publication, f: Filters)
    ensures PassesFilters(p, NoFilters)
    ensures PassesFilters(p, f) <==>
      && PassesFilters(p, NoFilters.(alignments := f.alignments))
      && PassesFilters(p, NoFilters.(directorates := f.directorates))
      && PassesFilters(p, NoFilters.(divisions := f.divisions))
      && PassesFilters(p, NoFilters.(query := f.query))
  {
  }

  /** The search ignores the case of the query and of the title. */
  lemma {:induction false} SearchIgnoresCase(p: Publication, f: Filters)
    ensures PassesFilters(p, f.(query := Lower(f.query))) <==> PassesFilters(p, f)
    ensures PassesFilters(p.(title := Lower(p.title)), f) <==> PassesFilters(p, f)
  {
    LowerTwice(f.query);
    LowerTwice(p.title);
  }

  lemma {:induction false} LowerTwice(s: string)
    ensures Lower(Lower(s)) == Lower(s)
    ensures Lower(s) == "" <==> s == ""
  {
    assert forall i :: 0 <= i < |s| ==> LowerChar(LowerChar(s[i])) == LowerChar(s[i]);
  }

  /** A timeline point; `index` is the publication's row, standing for its object identity. */
  datatype Point = Point(date: int, index: nat, pub: Publication)

  /** The point one `;`-separated piece contributes: none when blank, invalid or before the cutoff. */
  function PiecePoints(piece: string, index: nat, pub: Publication, cal: Calendar, cutoff: int): seq<Point> {
    if IsBlank(piece) then []
    else match cal.parse(piece)
      case None => []
      case Some(d) => if d >= cutoff then [Point(d, index, pub)] else []
  }

  function DatePoints(pieces: seq<string>, index: nat, pub: Publication, cal: Calendar, cutoff: int): seq<Point> {
    if |pieces| == 0 then []
    else DatePoints(pieces[..|pieces| - 1], index, pub, cal, cutoff) + PiecePoints(pieces[|pieces| - 1], index, pub, cal, cutoff)
  }

  /** The points of one publication. */
  function PublicationPoints(pub: Publication, index: nat, f: Filters, cal: Calendar, cutoff: int): seq<Point> {
    if !PassesFilters(pub, f) || pub.publishDates == "" then []
    else DatePoints(Split(pub.publishDates, ';'), index, pub, cal, cutoff)
  }

  /** The points of all publications, before sorting. */
  function CollectedPoints(pubs: seq<Publication>, f: Filters, cal: Calendar, cutoff: int): seq<Point> {
    if |pubs| == 0 then []
    else CollectedPoints(pubs[..|pubs| - 1], f, cal, cutoff) + PublicationPoints(pubs[|pubs| - 1], |pubs| - 1, f, cal, cutoff)
  }

  /** The body of the `publications.forEach` callback, with its early returns. */
  method PublicationPointsOf(pub: Publication, index: nat, f: Filters, cal: Calendar, cutoff: int) returns (ps: seq<Point>)
    ensures ps == PublicationPoints(pub, index, f, cal, cutoff)
  {
    ps := [];
    if |f.alignments| > 0 && Category(pub, Alignment) !in f.alignments {
      return;
    }
    if |f.directorates| > 0 && Category(pub, Directorate) !in f.directorates {
      return;
    }
    if |f.divisions| > 0 && Category(pub, Division) !in f.divisions {
      return;
    }
    if f.query != "" && !Includes(Lower(pub.title), Lower(f.query)) {
      return;
    }
    if pub.publishDates != "" {
      ps := DatePointsOf(Split(pub.publishDates, ';'), index, pub, cal, cutoff);
    }
  }

  /** `dateStrings.forEach(...)`: push a point for each usable date. */
  method DatePointsOf(pieces: seq<string>, index: nat, pub: Publication, cal: Calendar, cutoff: int) returns (ps: seq<Point>)
    ensures ps == DatePoints(pieces, index, pub, cal, cutoff)
  {
    ps := [];
    var j := 0;
    while j < |pieces|
      invariant 0 <= j <= |pieces|
      invariant ps == DatePoints(pieces[..j], index, pub, cal, cutoff)
    {
      var piece := pieces[j];
      assert pieces[..j + 1][..j] == pieces[..j];
      if !IsBlank(piece) {
        var date := cal.parse(piece);
        if date.Some? && date.value >= cutoff {
          ps := ps + [Point(date.value, index, pub)];
        }
      }
      j := j + 1;
    }
    assert pieces[..j] == pieces;
  }

  /** `allTimelinePoints` before its sort. */
  method CollectPoints(pubs: seq<Publication>, f: Filters, cal: Calendar, cutoff: int) returns (points: seq<Point>)
    ensures points == CollectedPoints(pubs, f, cal, cutoff)
  {
    points := [];
    var i := 0;
    while i < |pubs|
      invariant 0 <= i <= |pubs|
      invariant points == CollectedPoints(pubs[..i], f, cal, cutoff)
    {
      var ps := PublicationPointsOf(pubs[i], i, f, cal, cutoff);
      assert pubs[..i + 1][..i] == pubs[..i];
      points := points + ps;
      i := i + 1;
    }
    assert pubs[..i] == pubs;
  }

  /** Every point of one publication comes from a usable piece of its dates. */
  lemma {:induction false} DatePointsSound(pieces: seq<string>, index: nat, pub: Publication, cal: Calendar, cutoff: int, q: Point)
    requires q in DatePoints(pieces, index, pub, cal, cutoff)
    ensures q.index == index && q.pub == pub && q.date >= cutoff
    ensures exists piece :: piece in pieces && !IsBlank(piece) && cal.parse(piece) == Some(q.date)
  {
    var n := |pieces| - 1;
    if q in DatePoints(pieces[..n], index, pub, cal, cutoff) {
      DatePointsSound(pieces[..n], index, pub, cal, cutoff, q);
      var piece :| piece in pieces[..n] && !IsBlank(piece) && cal.parse(piece) == Some(q.date);
      assert piece in pieces;
    } else {
      assert q in PiecePoints(pieces[n], index, pub, cal, cutoff);
      assert pieces[n] in pieces;
    }
  }

  /**
   * Every point is a filtered-in publication's date, from a non-blank piece of
   * its `publish_dates`, no earlier than the cutoff.
   */
  lemma {:induction false} PointSound(pubs: seq<Publication>, f: Filters, cal: Calendar, cutoff: int, q: Point)
    requires q in CollectedPoints(pubs, f, cal, cutoff)
    ensures q.index < |pubs| && q.pub == pubs[q.index]
    ensures PassesFilters(q.pub, f) && q.date >= cutoff
    ensures exists piece :: piece in Split(q.pub.publishDates, ';') && !IsBlank(piece) && cal.parse(piece) == Some(q.date)
  {
    var n := |pubs| - 1;
    if q in CollectedPoints(pubs[..n], f, cal, cutoff) {
      PointSound(pubs[..n], f, cal, cutoff, q);
    } else {
      assert q in PublicationPoints(pubs[n], n, f, cal, cutoff);
      DatePointsSound(Split(pubs[n].publishDates, ';'), n, pubs[n], cal, cutoff, q);
    }
  }

  lemma {:induction false} DatePointsComplete(pieces: seq<string>, index: nat, pub: Publication, cal: Calendar, cutoff: int, k: nat)
    requires k < |pieces| && !IsBlank(pieces[k])
    requires cal.parse(pieces[k]).Some? && cal.parse(pieces[k]).value >= cutoff
    ensures Point(cal.parse(pieces[k]).value, index, pub) in DatePoints(pieces, index, pub, cal, cutoff)
  {
    var n := |pieces| - 1;
    if k < n {
      DatePointsComplete(pieces[..n], index, pub, cal, cutoff, k);
    }
  }

  /**
   * Conversely, every usable date of every filtered-in publication becomes a
   * point. (An empty `publish_dates` has no non-blank piece.)
   */
  lemma {:induction false} PointComplete(pubs: seq<Publication>, f: Filters, cal: Calendar, cutoff: int, i: nat, k: nat)
    requires i < |pubs| && PassesFilters(pubs[i], f)
    requires k < |Split(pubs[i].publishDates, ';')|
    requires var piece := Split(pubs[i].publishDates, ';')[k];
      !IsBlank(piece) && cal.parse(piece).Some? && cal.parse(piece).value >= cutoff
    ensures Point(cal.parse(Split(pubs[i].publishDates, ';')[k]).value, i, pubs[i]) in CollectedPoints(pubs, f, cal, cutoff)
  {
    var n := |pubs| - 1;
    var pieces := Split(pubs[i].publishDates, ';');
    var pt := Point(cal.parse(pieces[k]).value, i, pubs[i]);
    var init := CollectedPoints(pubs[..n], f, cal, cutoff);
    var last := PublicationPoints(pubs[n], n, f, cal, cutoff);
    assert CollectedPoints(pubs, f, cal, cutoff) == init + last;
    if i < n {
      assert pubs[..n][i] == pubs[i];
      PointComplete(pubs[..n], f, cal, cutoff, i, k);
      assert pt in init;
    } else {
      SplitEmpty(';');
      assert pubs[i].publishDates != "";
      assert i == n;
      DatePointsComplete(pieces, i, pubs[i], cal, cutoff, k);
    }
  }

  lemma SplitEmpty(sep: char)
    ensures Split("", sep) == [""]
  {
  }

  /** With no selection and no query, every publication passes. */
  lemma NoFiltersAdmitAll(p: Publication)
    ensures PassesFilters(p, NoFilters)
  {
  }

  /** The comparator `a.date - b.date` (ascending) or `b.date - a.date` (descending) as an order. */
  function DateOrder(ascending: bool): (Point, Point) -> bool {
    (a: Point, b: Point) => if ascending then a.date <= b.date else b.date <= a.date
  }

  lemma DateOrderIsTotalPreorder(ascending: bool)
    ensures TotalPreorder(DateOrder(ascending))
  {
  }

  /** `points.sort(...)`: the same points, by date in the chosen direction. */
  function SortPoints(points: seq<Point>, ascending: bool): (r: seq<Point>)
    ensures multiset(r) == multiset(points)
    ensures forall i, j :: 0 <= i < j < |r| ==> if ascending then r[i].date <= r[j].date else r[i].date >= r[j].date
  {
    DateOrderIsTotalPreorder(ascending);
    Sort(points, DateOrder(ascending))
  }

  /** `allTimelinePoints`. */
  method AllTimelinePoints(pubs: seq<Publication>, f: Filters, cal: Calendar, cutoff: int, ascending: bool)
    returns (points: seq<Point>)
    ensures points == SortPoints(CollectedPoints(pubs, f, cal, cutoff), ascending)
  {
    var collected := CollectPoints(pubs, f, cal, cutoff);
    points := SortPoints(collected, ascending);
  }

  datatype ViewMode = Day | Week | Month

  /** The bucket key of a point in each view mode. */
  function BucketKey(cal: Calendar, mode: ViewMode): Point -> string {
    match mode
    case Day => (p: Point) => cal.dayKey(p.date)
    case Week => (p: Point) => cal.weekKey(p.date)
    case Month => (p: Point) => cal.monthKey(p.date)
  }

  /** One bucket: its key, its points in list order, and its first point's date. */
  datatype TimeGroup = TimeGroup(key: string, points: seq<Point>, date: int)

  /** The group of key `k`, which some point has. */
  function GroupOf(points: seq<Point>, key: Point -> string, k: string): (g: TimeGroup)
    requires k in Keys(points, key)
    ensures g.key == k && g.points == Members(points, key, k) && |g.points| > 0
    ensures g.date == g.points[0].date
  {
    MembersCount(points, key, k);
    var members := Members(points, key, k);
    TimeGroup(k, members, members[0].date)
  }

  /** `Object.entries(groups).map(...)`: one group per key, in first-seen order. */
  function UnsortedGroups(points: seq<Point>, key: Point -> string): (r: seq<TimeGroup>)
    ensures |r| == |Dedup(Keys(points, key))|
    ensures forall i :: 0 <= i < |r| ==> r[i] == GroupOf(points, key, Dedup(Keys(points, key))[i])
  {
    var order := Dedup(Keys(points, key));
    seq(|order|, i requires 0 <= i < |order| => GroupOf(points, key, order[i]))
  }

  function GroupOrder(ascending: bool): (TimeGroup, TimeGroup) -> bool {
    (a: TimeGroup, b: TimeGroup) => if ascending then a.date <= b.date else b.date <= a.date
  }

  lemma GroupOrderIsTotalPreorder(ascending: bool)
    ensures TotalPreorder(GroupOrder(ascending))
  {
  }

  /** `groupedTimelinePoints`, as a value. */
  function GroupedPoints(points: seq<Point>, cal: Calendar, mode: ViewMode, ascending: bool): seq<TimeGroup> {
    GroupOrderIsTotalPreorder(ascending);
    Sort(UnsortedGroups(points, BucketKey(cal, mode)), GroupOrder(ascending))
  }

  /** `groupedTimelinePoints`: fill the bucket dictionary, list its entries, sort them by date. */
  method GroupPoints(points: seq<Point>, cal: Calendar, mode: ViewMode, ascending: bool) returns (groups: seq<TimeGroup>)
    ensures groups == GroupedPoints(points, cal, mode, ascending)
  {
    var key := BucketKey(cal, mode);
    var order: seq<string>, buckets: map<string, seq<Point>> := GroupBy(points, key);
    var entries := seq(|order|, i requires 0 <= i < |order| =>
      TimeGroup(order[i], buckets[order[i]], buckets[order[i]][0].date));
    assert entries == UnsortedGroups(points, key);
    GroupOrderIsTotalPreorder(ascending);
    groups := Sort(entries, GroupOrder(ascending));
  }

  /** The groups in dictionary order have distinct keys and together hold every point once. */
  lemma UnsortedGroupsPartition(points: seq<Point>, key: Point -> string)
    ensures var gs := UnsortedGroups(points, key);
      forall i, j :: 0 <= i < j < |gs| ==> gs[i].key != gs[j].key
    ensures var gs := UnsortedGroups(points, key);
      forall q :: q in points ==> exists i :: 0 <= i < |gs| && q in gs[i].points
    ensures SizeSum(UnsortedGroups(points, key)) == |points|
  {
    var gs := UnsortedGroups(points, key);
    var order := Dedup(Keys(points, key));
    forall q | q in points
      ensures exists i :: 0 <= i < |gs| && q in gs[i].points
    {
      var j :| 0 <= j < |points| && points[j] == q;
      assert Keys(points, key)[j] == key(q);
      assert key(q) in order;
      var i :| 0 <= i < |order| && order[i] == key(q);
      MembersComplete(points, key, q);
    }
    SizeSumIsSumOfSizes(gs, points, key, order);
    GroupSizesSum(points, key, order);
  }

  /** Total number of points over the groups. */
  function SizeSum(gs: seq<TimeGroup>): nat {
    if |gs| == 0 then 0 else SizeSum(gs[..|gs| - 1]) + |gs[|gs| - 1].points|
  }

  lemma {:induction false} SizeSumIsSumOfSizes(gs: seq<TimeGroup>, points: seq<Point>, key: Point -> string, order: seq<string>)
    requires |gs| == |order|
    requires forall i :: 0 <= i < |gs| ==> gs[i].points == Members(points, key, order[i])
    ensures SizeSum(gs) == SumOfSizes(points, key, order)
  {
    if |gs| > 0 {
      var n := |gs| - 1;
      SizeSumIsSumOfSizes(gs[..n], points, key, order[..n]);
    }
  }

  /** The displayed groups are the dictionary's groups, rearranged, with none repeated. */
  lemma SortedGroupsAreGroups(points: seq<Point>, cal: Calendar, mode: ViewMode, ascending: bool)
    ensures var gs := GroupedPoints(points, cal, mode, ascending);
      forall g :: g in gs <==> g in UnsortedGroups(points, BucketKey(cal, mode))
    ensures Distinct(GroupedPoints(points, cal, mode, ascending))
  {
    var us := UnsortedGroups(points, BucketKey(cal, mode));
    var gs := GroupedPoints(points, cal, mode, ascending);
    assert multiset(gs) == multiset(us);
    forall g
      ensures g in gs <==> g in us
    {
      assert g in gs <==> g in multiset(gs);
      assert g in us <==> g in multiset(us);
    }
    UnsortedGroupsPartition(points, BucketKey(cal, mode));
    assert Distinct(us) by {
      forall i, j | 0 <= i < j < |us|
        ensures us[i] != us[j]
      {
        assert us[i].key != us[j].key;
      }
    }
    DistinctPermutation(us, gs);
  }

  /** Each displayed group is non-empty, dated by its first point, and holds points of its own key. */
  lemma GroupShape(points: seq<Point>, cal: Calendar, mode: ViewMode, ascending: bool, g: TimeGroup)
    requires g in GroupedPoints(points, cal, mode, ascending)
    ensures |g.points| > 0 && g.date == g.points[0].date
    ensures forall q :: q in g.points ==> q in points && BucketKey(cal, mode)(q) == g.key
  {
    SortedGroupsAreGroups(points, cal, mode, ascending);
    var us := UnsortedGroups(points, BucketKey(cal, mode));
    var i :| 0 <= i < |us| && us[i] == g;
  }

  /** The displayed groups have distinct keys, so no point is in two of them. */
  lemma GroupKeysDistinct(points: seq<Point>, cal: Calendar, mode: ViewMode, ascending: bool)
    ensures var gs := GroupedPoints(points, cal, mode, ascending);
      forall i, j :: 0 <= i < j < |gs| ==> gs[i].key != gs[j].key
    ensures var gs := GroupedPoints(points, cal, mode, ascending);
      forall q, i, j :: 0 <= i < |gs| && 0 <= j < |gs| && q in gs[i].points && q in gs[j].points ==> i == j
  {
    var gs := GroupedPoints(points, cal, mode, ascending);
    var us := UnsortedGroups(points, BucketKey(cal, mode));
    SortedGroupsAreGroups(points, cal, mode, ascending);
    UnsortedGroupsPartition(points, BucketKey(cal, mode));
    forall i, j | 0 <= i < j < |gs|
      ensures gs[i].key != gs[j].key
    {
      assert gs[i] in us && gs[j] in us;
      var a :| 0 <= a < |us| && us[a] == gs[i];
      var b :| 0 <= b < |us| && us[b] == gs[j];
    }
    forall q, i, j | 0 <= i < |gs| && 0 <= j < |gs| && q in gs[i].points && q in gs[j].points
      ensures i == j
    {
      GroupShape(points, cal, mode, ascending, gs[i]);
      GroupShape(points, cal, mode, ascending, gs[j]);
    }
  }

  /** Every point is shown in some group, and the groups are in date order in the chosen direction. */
  lemma GroupsCoverAndOrder(points: seq<Point>, cal: Calendar, mode: ViewMode, ascending: bool)
    ensures var gs := GroupedPoints(points, cal, mode, ascending);
      forall q :: q in points ==> exists i :: 0 <= i < |gs| && q in gs[i].points
    ensures var gs := GroupedPoints(points, cal, mode, ascending);
      forall i, j :: 0 <= i < j < |gs| ==> if ascending then gs[i].date <= gs[j].date else gs[i].date >= gs[j].date
  {
    var gs := GroupedPoints(points, cal, mode, ascending);
    var us := UnsortedGroups(points, BucketKey(cal, mode));
    SortedGroupsAreGroups(points, cal, mode, ascending);
    UnsortedGroupsPartition(points, BucketKey(cal, mode));
    forall q | q in points
      ensures exists i :: 0 <= i < |gs| && q in gs[i].points
    {
      var u :| 0 <= u < |us| && q in us[u].points;
      assert us[u] in gs;
      var i :| 0 <= i < |gs| && gs[i] == us[u];
    }
    forall i, j | 0 <= i < j < |gs|
      ensures if ascending then gs[i].date <= gs[j].date else gs[i].date >= gs[j].date
    {
      assert GroupOrder(ascending)(gs[i], gs[j]);
    }
  }

  /**
   * When the points are in date order, every group's date is the earliest
   * (ascending) or latest (descending) of its points.
   */
  lemma GroupDateIsExtreme(points: seq<Point>, cal: Calendar, mode: ViewMode, ascending: bool, g: TimeGroup, q: Point)
    requires SortedBy(points, DateOrder(ascending))
    requires g in GroupedPoints(points, cal, mode, ascending) && q in g.points
    ensures if ascending then g.date <= q.date else g.date >= q.date
  {
    var key := BucketKey(cal, mode);
    var us := UnsortedGroups(points, key);
    assert multiset(GroupedPoints(points, cal, mode, ascending)) == multiset(us);
    assert g in multiset(us);
    var i :| 0 <= i < |us| && us[i] == g;
    MembersSorted(points, key, g.key, DateOrder(ascending));
    var m :| 0 <= m < |g.points| && g.points[m] == q;
    if m > 0 {
      assert DateOrder(ascending)(g.points[0], g.points[m]);
    }
  }

  /** The `new Set()` filled by `publications.forEach(...)`, in insertion order. */
  method DistinctValues(pubs: seq<Publication>, field: Field) returns (values: seq<string>)
    ensures values == Dedup(Categories(pubs, field))
  {
    ghost var all := Categories(pubs, field);
    values := [];
    var i := 0;
    while i < |pubs|
      invariant 0 <= i <= |pubs|
      invariant values == Dedup(all[..i])
    {
      var v := Category(pubs[i], field);
      assert all[..i + 1] == all[..i] + [v];
      DedupSnoc(all[..i], v);
      if v !in values {
        values := values + [v];
      }
      i := i + 1;
    }
    assert all[..i] == all;
  }

  /** The default sort of a duplicate-free list: strictly increasing, same elements. */
  function SortStrings(values: seq<string>): (r: seq<string>)
    requires Distinct(values)
    ensures forall v :: v in r <==> v in values
    ensures forall i, j :: 0 <= i < j < |r| ==> LexLeq(r[i], r[j]) && r[i] != r[j]
  {
    LexLeqIsTotalPreorder();
    var r := Sort(values, LexLeq);
    DistinctPermutation(values, r);
    assert forall v :: v in r <==> v in multiset(values);
    r
  }

  /** `availableAlignments` / `availableDirectorates` / `availableDivisions`. */
  method AvailableValues(pubs: seq<Publication>, field: Field) returns (r: seq<string>)
    ensures forall v :: v in r <==> v in Categories(pubs, field)
    ensures forall i, j :: 0 <= i < j < |r| ==> LexLeq(r[i], r[j]) && r[i] != r[j]
  {
    var values := DistinctValues(pubs, field);
    r := SortStrings(values);
  }

  /** `TimeframeStatistics`' per-point column values. */
  function PointCategories(points: seq<Point>, field: Field): (r: seq<string>)
    ensures |r| == |points|
    ensures forall i :: 0 <= i < |points| ==> r[i] == Category(points[i].pub, field)
  {
    seq(|points|, i requires 0 <= i < |points| => Category(points[i].pub, field))
  }

  /** `alignmentCounts` / `directorateCounts`: occurrences of each defaulted value among a group's points. */
  method TimeframeCounts(points: seq<Point>, field: Field) returns (order: seq<string>, counts: map<string, nat>)
    ensures order == Dedup(PointCategories(points, field))
    ensures forall k :: k in counts <==> k in order
    ensures forall k :: k in counts ==> counts[k] == Count(PointCategories(points, field), k) >= 1
  {
    order, counts := Tally(PointCategories(points, field));
  }

  /** The counts of a timeframe add up to its number of points. */
  lemma TimeframeCountsTotal(points: seq<Point>, field: Field)
    ensures SumOfCounts(Dedup(PointCategories(points, field)), PointCategories(points, field)) == |points|
  {
    SumOfCountsIsLength(Dedup(PointCategories(points, field)), PointCategories(points, field));
  }

  /** `totalActiveFilters`. */
  function TotalActiveFilters(f: Filters): (n: nat)
    ensures n == 0 <==> f == NoFilters
    ensures n >= |f.alignments| + |f.directorates| + |f.divisions|
  {
    |f.alignments| + |f.directorates| + |f.divisions| + (if f.query != "" then 1 else 0)
  }

  /** The header's " with N active filter(s)" suffix. */
  function FilterSuffix(f: Filters): (r: string)
    ensures r == "" <==> f == NoFilters
    ensures r != "" ==> (r[|r| - 1] == 's' <==> TotalActiveFilters(f) > 1)
  {
    var n := TotalActiveFilters(f);
    if n > 0 then " with " + NatToString(n) + " active filter" + (if n > 1 then "s" else "") else ""
  }

  /** `chartColors[alignment] || "var(--chart-1)"`. */
  function PublicationColor(chartColors: map<string, string>, p: Publication): (r: string)
    ensures r != ""
    ensures Category(p, Alignment) in chartColors && chartColors[Category(p, Alignment)] != "" ==>
              r == chartColors[Category(p, Alignment)]
  {
    var a := Category(p, Alignment);
    if a in chartColors && chartColors[a] != "" then chartColors[a] else "var(--chart-1)"
  }
}
