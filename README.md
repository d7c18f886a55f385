# Publications dashboard and accessibility reports — a Dafny model

This project models the client-side data shaping of the publications dashboard and its
accessibility-report generators. The dashboard loads a table of publications. Each
publication has a title, division, directorate, frequency, output type, PO2 alignment and
a `;`-separated list of publish dates.

- **Timeline page.** It filters the publications by alignment, directorate, division and a
  title search. It turns every recent publish date into a point, sorts the points by date,
  and buckets them by day, week or month. A small state machine handles the selected point,
  the hovered point, the filter check boxes, the view mode and the sort order.
- **Tree map.** It builds a three-level hierarchy: PO2 alignment, then division, then
  publication. The view orders the top-level nodes with "Other" last, colours each subtree
  by the parent's position, labels counts, and keeps zoom and drag state.
- **Statistics page.** It builds group-and-count tallies over one field with a cycling
  palette, a month × output-type pivot (each month a `{ name, ...counts }` object, so an
  output type called `name` displaces the month label) with a tooltip total and stacked bars, a heat-map
  grid, and the chart configuration built from tally entries.
- **Page layout.** It turns the pathname into breadcrumbs.
- **Accessibility reports.** Two generators write reports from axe results. One writes a
  single-page HTML report. The other writes HTML and Markdown reports with a severity
  tally, and combined multi-route reports. Both escape element markup with the same
  five-step `escapeHtml`.

Sequences stand for arrays. Maps stand for the JavaScript objects used as dictionaries.
Imperative loops (`forEach` with pushes, counters and accumulators) are methods with loop
invariants, proved against specification functions. The two stateful components (the
timeline and the tree map) are classes whose methods update their fields. Functions
supplied by libraries are parameters of the model:

- date parsing (`new Date`);
- the day/week/month bucket keys (`format`/`startOfWeek`);
- `localeCompare`;
- the clock reading.

Modules: `Wrappers`, `Seqs`, `Text`, `Grouping`, `Records`, `Statistics`, `ChartConfig`,
`PublicationTimeline`, `Heatmap`, `Breadcrumbs`, `TreeMapBuilder`, `TreeMapView`,
`Timeline`, `TimelineView`, `HtmlEscape`, `AxeResults`, `AxeHtmlReport`, `AxeReport`.

## Model

| member | source | states |
|---|---|---|
| Records.Category | app/src/app/dashboard/statistics/page.tsx:57 | a field value defaulted with `\|\| "Unknown"` is never empty and is the value itself when that is non-empty |
| Text.Split | app/src/components/dashboard/timeline/timeline.tsx:365 | `split` yields at least one piece and no piece contains the separator |
| Text.JoinSplit | app/src/components/app-layout.tsx:22-26 | joining the pieces of a split with the separator gives back the original string |
| Text.SplitJoin | app/src/components/app-layout.tsx:22-26 | splitting a join of separator-free pieces gives back the pieces |
| Text.DropTwoLines | testing/generate.js:279 | `split('\n').slice(2).join('\n')` removes exactly the first two lines |
| Text.Lower | app/src/components/dashboard/timeline/timeline.tsx:358-359 | lower-casing keeps the length and maps every character |
| Text.Includes | app/src/components/dashboard/timeline/timeline.tsx:357-359 | `includes` holds iff the query occurs at some position of the title |
| Text.JoinIncludes | testing/generate.js:225-249 | in `parts.join(sep)` followed by any text, every part occurs followed by the separator, or by that text after the last part |
| Text.JoinIncludesPart | testing/generate.js:238 | every part occurs in the joined text |
| Text.NatToString | app/src/app/dashboard/tree-map/page.tsx:115 | `String(n)` is a non-empty string of decimal digits |
| Text.NatToStringValue | app/src/app/dashboard/tree-map/page.tsx:115 | the digits of `String(n)` read back as n, with no leading zero for n > 0 |
| Text.NatToStringInjective | app/src/app/dashboard/tree-map/page.tsx:115 | distinct numbers are shown as distinct strings |
| Text.LexLeqIsTotalPreorder | app/src/components/dashboard/timeline/timeline.tsx:294 | the default string order used by `sort()` is a total preorder |
| Seqs.Dedup | app/src/components/dashboard/timeline/timeline.tsx:289-293 | the `Set` of values is duplicate-free and holds exactly the values of the input |
| Seqs.DedupFirstSeen | app/src/app/dashboard/statistics/page.tsx:61 | keys come out in first-occurrence order: an earlier key first occurs before any later key's occurrence |
| Seqs.Filter | app/src/components/app-layout.tsx:22 | `filter` keeps only elements that pass the test, every passing value is kept, and the result is a sub-multiset of the input |
| Seqs.FilterAppend | app/src/components/app-layout.tsx:22 | filtering a concatenation is the concatenation of the filtered parts, so the passing elements keep their order |
| Seqs.FilterCounts | app/src/components/app-layout.tsx:22 | each passing value occurs as often as in the input, and each failing value not at all |
| Seqs.FilterIdempotent | app/src/components/app-layout.tsx:22 | filtering twice with the same test equals filtering once |
| Seqs.FilterSorted | app/src/components/dashboard/timeline/timeline.tsx:383-389 | filtering a sorted sequence keeps it sorted |
| Seqs.SumOfCountsIsLength | app/src/app/dashboard/statistics/page.tsx:55-65 | the counts of distinct names covering every value sum to the number of values |
| Seqs.DistinctPermutation | app/src/components/dashboard/timeline/timeline.tsx:289-292 | a permutation of a duplicate-free sequence is duplicate-free |
| Seqs.Insert | app/src/components/dashboard/timeline/timeline.tsx:383-389 | inserting into a sorted sequence keeps it sorted and adds exactly the new element |
| Seqs.Sort | app/src/components/dashboard/timeline/timeline.tsx:383-389 | `sort` with a total-preorder comparator returns a sorted permutation of its input |
| Grouping.Members | app/src/app/dashboard/tree-map/page.tsx:68-74 | every member of key `k`'s group is an input element with key `k` |
| Grouping.MembersCount | app/src/app/dashboard/tree-map/page.tsx:70-73 | a group's size is the number of occurrences of its key |
| Grouping.GroupSizesSum | app/src/app/dashboard/tree-map/page.tsx:68-74 | the group sizes over the first-seen keys sum to the input length |
| Grouping.SumOfSizesIsSumOfCounts | app/src/app/dashboard/tree-map/page.tsx:68-74 | summing group sizes equals summing key counts |
| Grouping.MembersComplete | app/src/app/dashboard/tree-map/page.tsx:73 | every element lands in the group of its own key |
| Grouping.MemberIndex | app/src/app/dashboard/tree-map/page.tsx:73 | gives the position of an element inside its group |
| Grouping.MembersSorted | app/src/components/dashboard/timeline/timeline.tsx:443-447 | grouping a sorted list keeps each group sorted |
| Grouping.MembersOfAbsentKey | app/src/app/dashboard/tree-map/page.tsx:70-72 | a key that no element has gets an empty group |
| Grouping.GroupBy | app/src/app/dashboard/tree-map/page.tsx:66-74 | the `forEach`/push loop yields the first-seen key order and, per key, exactly that key's elements in input order, never an empty group |
| Grouping.Tally | app/src/app/dashboard/statistics/page.tsx:55-59 | the `(counts[k] \|\| 0) + 1` loop yields the first-seen key order and, per key, its number of occurrences (at least 1) |
| Grouping.TallySnoc | app/src/app/dashboard/statistics/page.tsx:58 | one counter update extends the tally of a prefix to the tally of the longer prefix |
| Statistics.TotalValueIsSumOfCounts | app/src/app/dashboard/statistics/page.tsx:61-65 | entries whose values are counts sum to the sum of those counts |
| Statistics.TallyFacts | app/src/app/dashboard/statistics/page.tsx:55-65 | a tally has distinct names, values of at least 1, a name for every record, and values summing to the number of records |
| Statistics.ToEntries | app/src/app/dashboard/statistics/page.tsx:61-65 | `Object.entries(...).map` keeps the key order, takes each count as the value, and fills entry `i` with colour `i mod 8` |
| Statistics.GroupCount | app/src/app/dashboard/statistics/page.tsx:52-117 | each of the four tallies: empty for no data, distinct non-empty names, every record counted under its defaulted value, values at least 1 and summing to the number of records |
| ChartConfig.CreateChartConfig | app/src/utils/charts/config.ts:9-21 | the keys are exactly `value` and the item names; each item's label is its name; `value` keeps label "Count" unless an item is named `value` |
| ChartConfig.ChartConfigUnique | app/src/utils/charts/config.ts:10-18 | the configuration is determined by the list of names |
| ChartConfig.ConfigIgnoresValues | app/src/utils/charts/config.ts:14-18 | data with the same names give the same configuration, whatever their values |
| PublicationTimeline.Zeros | app/src/components/dashboard/statistics/publication-timeline.tsx:62-64 | a row starts with every output type at 0 and no other key |
| PublicationTimeline.Spread | app/src/components/dashboard/statistics/publication-timeline.tsx:76-79 | the object spread keeps `name` plus every count key, every count is kept, and the month label survives only when no count is keyed `name` |
| PublicationTimeline.MonthNamesDistinct | app/src/components/dashboard/statistics/publication-timeline.tsx:51-54 | the twelve month names are distinct |
| PublicationTimeline.ZeroCounts | app/src/components/dashboard/statistics/publication-timeline.tsx:62-64 | the initialisation loop builds the all-zero row |
| PublicationTimeline.AggregateStep | app/src/components/dashboard/statistics/publication-timeline.tsx:69-72 | one `+=` step extends the pivot of a prefix to the pivot of the longer prefix; out-of-range months change nothing |
| PublicationTimeline.TimelineData | app/src/components/dashboard/statistics/publication-timeline.tsx:50-80 | exactly 12 row objects in calendar order, each keyed by `name` and the output types; row m's cell for type t is the sum of `count` over entries of month m+1 and type t; the `name` cell is the month label Jan..Dec unless an output type is called `name`, whose count then replaces the label |
| PublicationTimeline.OutOfRangeRowsIgnored | app/src/components/dashboard/statistics/publication-timeline.tsx:69 | entries whose month is outside 1..12 do not change any month total |
| PublicationTimeline.ReduceTotalIsSum | app/src/components/dashboard/statistics/publication-timeline.tsx:85-88 | the `reduce` total is the start value plus the sum of the payload values |
| PublicationTimeline.Tooltip | app/src/components/dashboard/statistics/publication-timeline.tsx:83-113 | a tooltip exists iff active with a non-empty payload; it lists the payload and its total is their sum |
| PublicationTimeline.ColorAt | app/src/components/dashboard/statistics/publication-timeline.tsx:159 | a bar colour is drawn from the palette |
| PublicationTimeline.Bars | app/src/components/dashboard/statistics/publication-timeline.tsx:153-161 | one bar per output type in order, coloured `colors[i mod len]`, and only the last bar has rounded top corners |
| Heatmap.GetCellValue | app/src/components/dashboard/statistics/heatmap.tsx:49-52 | the value of the first item matching both keys, else 0 |
| Heatmap.MaxValue | app/src/components/dashboard/statistics/heatmap.tsx:39 | for non-empty data, at least every value and equal to one of them; none for empty data |
| Heatmap.CellLabel | app/src/components/dashboard/statistics/heatmap.tsx:111 | a cell shows its number iff the value is positive |
| Heatmap.Grid | app/src/components/dashboard/statistics/heatmap.tsx:91-117 | one row per y label and one cell per x label, in label order, each holding its cell value and showing it iff positive |
| Heatmap.AbsentCellIsEmpty | app/src/components/dashboard/statistics/heatmap.tsx:96-111 | a cell with no matching item shows empty text |
| Breadcrumbs.Segments | app/src/components/app-layout.tsx:22 | the segments are non-empty and contain no `/` |
| Breadcrumbs.DisplayName | app/src/components/app-layout.tsx:27-29 | a segment shorter than 16 characters gets its first character upper-cased; a longer one is unchanged |
| Breadcrumbs.GenerateBreadcrumbs | app/src/components/app-layout.tsx:21-42 | one crumb per segment in order, with the prefix href and the display name; exactly the last crumb is marked last |
| Breadcrumbs.RootHasNoCrumbs | app/src/components/app-layout.tsx:22 | `""` and `"/"` give no crumbs |
| Breadcrumbs.HrefExtends | app/src/components/app-layout.tsx:26 | each crumb's href is the previous href plus `/` and the next segment, so it extends the previous one |
| Breadcrumbs.RenderedTrail | app/src/components/app-layout.tsx:33-38 | the last crumb renders as a page; every other crumb renders as a link followed by a separator |
| Breadcrumbs.SegmentsOfJoinedPath | app/src/components/app-layout.tsx:22 | splitting `/a/b/...` gives back its segments |
| Breadcrumbs.FilterDropsOnlyEmpty | app/src/components/app-layout.tsx:22 | `filter(Boolean)` removes just the leading empty piece |
| Breadcrumbs.LastCrumbIsWholePath | app/src/components/app-layout.tsx:24-26 | for a path `/a/b/...`, the last crumb links to the whole path and is marked last |
| TreeMapBuilder.DivisionNodes | app/src/app/dashboard/tree-map/page.tsx:90-119 | one division node per first-seen division |
| TreeMapBuilder.TreeMapData | app/src/app/dashboard/tree-map/page.tsx:77-132 | one alignment node per first-seen alignment, in that order |
| TreeMapBuilder.AlignmentStep | app/src/app/dashboard/tree-map/page.tsx:78-131 | the node built from the grouped division map equals the specification's node for that alignment |
| TreeMapBuilder.BuildAlignmentNode | app/src/app/dashboard/tree-map/page.tsx:77-131 | the per-alignment loop builds that alignment's specification node |
| TreeMapBuilder.ProcessDataForTreeMap | app/src/app/dashboard/tree-map/page.tsx:64-133 | `processDataForTreeMap` returns exactly the specified hierarchy |
| TreeMapBuilder.ValueSumOfGroups | app/src/app/dashboard/tree-map/page.tsx:108-123 | nodes whose values are group sizes sum to the sum of the group sizes |
| TreeMapBuilder.TopLevelNames | app/src/app/dashboard/tree-map/page.tsx:69-77 | top-level names are distinct, and every publication's defaulted alignment names a top-level node |
| TreeMapBuilder.AlignmentValue | app/src/app/dashboard/tree-map/page.tsx:121-124 | an alignment's value is at least 1 and equals the sum of its division values; its colour is `chartColors[i mod 8]` |
| TreeMapBuilder.TotalIsPublicationCount | app/src/app/dashboard/tree-map/page.tsx:68-123 | the top-level values sum to the number of publications |
| TreeMapBuilder.DivisionValue | app/src/app/dashboard/tree-map/page.tsx:92-112 | a division's value is its number of leaves (at least 1), coloured `(i+d+1) mod 8`; each leaf has value 1, no children and colour `(i+d+2) mod 8` |
| TreeMapBuilder.NodeDetails | app/src/app/dashboard/tree-map/page.tsx:113-130 | an alignment's "Total Publications" detail is its value as text and "Divisions" is its number of division children, one per distinct division of its publications; a division's "Publications" detail is its number of leaves |
| TreeMapBuilder.DivisionOf | app/src/app/dashboard/tree-map/page.tsx:81-106 | a publication of an alignment is a leaf of its own division node |
| TreeMapBuilder.PublicationPlacement | app/src/app/dashboard/tree-map/page.tsx:68-106 | every publication appears as a leaf under its own alignment and its own division |
| TreeMapBuilder.LeafOrigin | app/src/app/dashboard/tree-map/page.tsx:92-106 | every leaf comes from a publication of that alignment and that division |
| TreeMapBuilder.LeafDetails | app/src/app/dashboard/tree-map/page.tsx:92-106 | a leaf's details are its publication's raw columns; its first detail names the leaf, and its Division and PO2 Alignment details, once defaulted, name its division and alignment nodes |
| TreeMapView.ParentOrderIsTotalPreorder | app/src/components/dashboard/tree-map/map.tsx:121-124 | the "Other"-last comparator over a total name order is a total preorder |
| TreeMapView.SortParents | app/src/components/dashboard/tree-map/map.tsx:121-125 | the sorted copy is a permutation of the data; non-"Other" nodes are in name order and every "Other" node comes after them |
| TreeMapView.CountLabel | app/src/components/dashboard/tree-map/map.tsx:143-148 | a zero value renders "0" (React renders the falsy number); otherwise the label starts with the number and ends in "s" iff the value is not 1 |
| TreeMapView.LeafBoxes | app/src/components/dashboard/tree-map/map.tsx:189-210 | one box per publication, in the parent's style |
| TreeMapView.DivisionBoxes | app/src/components/dashboard/tree-map/map.tsx:157-170 | one box per division, in the parent's style, holding its publications' boxes |
| TreeMapView.Layout | app/src/components/dashboard/tree-map/map.tsx:121-140 | one box per top-level node, in sorted order |
| TreeMapView.LayoutColors | app/src/components/dashboard/tree-map/map.tsx:126-203 | the parent at sorted index i uses `chartColors[i mod 8]`, and all its divisions and publications reuse that style |
| TreeMapView.BuiltNodesHaveCountLabels | app/src/components/dashboard/tree-map/map.tsx:143-179 | nodes built by the page never have a zero value, so their count labels start with the number |
| TreeMapView.Zoom | app/src/components/dashboard/tree-map/map.tsx:86-93 | the new scale is in [0.5, 5]; scrolling down never grows it and scrolling up never shrinks it; inside the bounds it is exactly ×0.9 or ×1.1 |
| TreeMapView.DragFollowsPointer | app/src/components/dashboard/tree-map/map.tsx:60-73 | after a mouse-down, the position moves by the pointer's displacement; a move to the mouse-down point leaves it unchanged |
| TreeMapView.TreeMapState.constructor | app/src/components/dashboard/tree-map/map.tsx:50-56 | nothing selected, not dragging, origin position, scale 1 |
| TreeMapView.TreeMapState.MouseDown | app/src/components/dashboard/tree-map/map.tsx:60-64 | starts dragging and records the pointer's offset from the position; nothing else changes |
| TreeMapView.TreeMapState.MouseMove | app/src/components/dashboard/tree-map/map.tsx:67-73 | while dragging, the position follows the pointer; otherwise the position is unchanged |
| TreeMapView.TreeMapState.MouseUp | app/src/components/dashboard/tree-map/map.tsx:76-78 | stops dragging; nothing else changes |
| TreeMapView.TreeMapState.MouseLeave | app/src/components/dashboard/tree-map/map.tsx:81-83 | stops dragging; nothing else changes |
| TreeMapView.TreeMapState.Wheel | app/src/components/dashboard/tree-map/map.tsx:86-93 | the scale becomes the clamped zoom and stays in [0.5, 5]; nothing else changes |
| TreeMapView.TreeMapState.NodeClick | app/src/components/dashboard/tree-map/map.tsx:95-97 | the clicked node becomes selected |
| TreeMapView.TreeMapState.Close | app/src/components/dashboard/tree-map/map.tsx:286 | the selection is cleared |
| Timeline.PublicationPointsOf | app/src/components/dashboard/timeline/timeline.tsx:327-380 | one publication's loop yields exactly the specified points |
| Timeline.DatePointsOf | app/src/components/dashboard/timeline/timeline.tsx:365-379 | the inner date loop yields exactly the specified points |
| Timeline.CollectPoints | app/src/components/dashboard/timeline/timeline.tsx:316-381 | the outer loop yields the points of every publication in order |
| Timeline.DatePointsSound | app/src/components/dashboard/timeline/timeline.tsx:367-377 | every point comes from a non-blank piece that parses to its date, and that date is at least the cutoff |
| Timeline.PointSound | app/src/components/dashboard/timeline/timeline.tsx:327-380 | every point belongs to a publication that passes all four filters, with a date from its `publish_dates` at least the cutoff |
| Timeline.DatePointsComplete | app/src/components/dashboard/timeline/timeline.tsx:367-377 | every non-blank piece that parses to a date at least the cutoff yields a point |
| Timeline.PointComplete | app/src/components/dashboard/timeline/timeline.tsx:327-380 | every such piece of every publication that passes the filters yields a point |
| Timeline.NoFiltersAdmitAll | app/src/components/dashboard/timeline/timeline.tsx:329-361 | with empty selections and an empty query every publication passes |
| Timeline.DateOrderIsTotalPreorder | app/src/components/dashboard/timeline/timeline.tsx:383-389 | the date comparator in either direction is a total preorder |
| Timeline.SortPoints | app/src/components/dashboard/timeline/timeline.tsx:383-389 | the points are permuted into ascending or descending date order |
| Timeline.AllTimelinePoints | app/src/components/dashboard/timeline/timeline.tsx:316-396 | the point list is the sorted collection of filtered points |
| Timeline.GroupOf | app/src/components/dashboard/timeline/timeline.tsx:443-457 | a group holds exactly the points with its key (never none) and its date is its first point's date |
| Timeline.UnsortedGroups | app/src/components/dashboard/timeline/timeline.tsx:450-455 | one group per first-seen bucket key |
| Timeline.GroupOrderIsTotalPreorder | app/src/components/dashboard/timeline/timeline.tsx:456 | the group comparator in either direction is a total preorder |
| Timeline.GroupPoints | app/src/components/dashboard/timeline/timeline.tsx:416-458 | the grouping loop yields exactly the specified sorted groups |
| Timeline.UnsortedGroupsPartition | app/src/components/dashboard/timeline/timeline.tsx:443-447 | the group keys are distinct, every point is in a group, and the group sizes sum to the number of points |
| Timeline.SizeSumIsSumOfSizes | app/src/components/dashboard/timeline/timeline.tsx:443-447 | groups of key members have the grouping's total size |
| Timeline.SortedGroupsAreGroups | app/src/components/dashboard/timeline/timeline.tsx:450-457 | sorting keeps exactly the groups, without duplicates |
| Timeline.GroupShape | app/src/components/dashboard/timeline/timeline.tsx:427-457 | every group is non-empty, dated by its first point, and holds only input points with its bucket key |
| Timeline.GroupKeysDistinct | app/src/components/dashboard/timeline/timeline.tsx:443-457 | group keys are distinct and no point is in two groups |
| Timeline.GroupsCoverAndOrder | app/src/components/dashboard/timeline/timeline.tsx:443-457 | every point is in some group, and the groups are ordered by date in the points' direction |
| Timeline.GroupDateIsExtreme | app/src/components/dashboard/timeline/timeline.tsx:450-457 | for sorted points, a group's date is its earliest (ascending) or latest (descending) point |
| Timeline.DistinctValues | app/src/components/dashboard/timeline/timeline.tsx:287-314 | the `Set` loop collects the distinct defaulted values in first-seen order |
| Timeline.SortStrings | app/src/components/dashboard/timeline/timeline.tsx:294-313 | `sort()` returns the same values in strictly increasing order |
| Timeline.AvailableValues | app/src/components/dashboard/timeline/timeline.tsx:287-314 | each available list holds exactly the defaulted values present, strictly sorted |
| Timeline.TimeframeCounts | app/src/components/dashboard/timeline/timeline.tsx:164-181 | the counter loop yields first-seen order and each value's number of points (at least 1) |
| Timeline.TimeframeCountsTotal | app/src/components/dashboard/timeline/timeline.tsx:164-181 | the counts sum to the number of points |
| Timeline.TotalActiveFilters | app/src/components/dashboard/timeline/timeline.tsx:409-413 | zero iff no filter is set, and at least the total number of selections |
| Timeline.FilterSuffix | app/src/components/dashboard/timeline/timeline.tsx:526-529 | the header suffix is empty iff no filter is set, and ends in "s" iff more than one filter is active |
| Timeline.FiltersConjoin | app/src/components/dashboard/timeline/timeline.tsx:329-362 | with no filter set every publication passes; otherwise it passes iff it passes each filter set alone |
| Timeline.SearchIgnoresCase | app/src/components/dashboard/timeline/timeline.tsx:355-362 | the search result does not change when the query or the title is lower-cased |
| Timeline.PublicationColor | app/src/components/dashboard/timeline/timeline.tsx:488-492 | never empty; the palette colour of the defaulted alignment when that colour is non-empty |
| TimelineView.Click | app/src/components/dashboard/timeline/timeline.tsx:461-472 | clicking clears the selection iff the clicked point (same date, same publication) is the one selected, and otherwise selects it |
| TimelineView.ClickTwice | app/src/components/dashboard/timeline/timeline.tsx:461-472 | clicking the same point twice restores whether it was selected |
| TimelineView.Active | app/src/components/dashboard/timeline/timeline.tsx:512 | the active point is the selected one if any, else the hovered one |
| TimelineView.Check | app/src/components/dashboard/timeline/timeline.tsx:636-647 | checking appends the value; unchecking removes every copy of it and keeps every other selected value |
| TimelineView.UncheckAfterCheck | app/src/components/dashboard/timeline/timeline.tsx:636-647 | checking and then unchecking a value that was not selected restores the selection |
| TimelineView.FilterKeepsAll | app/src/components/dashboard/timeline/timeline.tsx:644 | removing an absent value leaves the selection unchanged |
| TimelineView.TimelineState.constructor | app/src/components/dashboard/timeline/timeline.tsx:246-285 | nothing selected or hovered, daily view, newest first, no filters |
| TimelineView.TimelineState.PointClick | app/src/components/dashboard/timeline/timeline.tsx:461-472 | the selection toggles as `Click` says; nothing else changes |
| TimelineView.TimelineState.PointMouseEnter | app/src/components/dashboard/timeline/timeline.tsx:475-481 | the point becomes hovered, and active when nothing is selected |
| TimelineView.TimelineState.PointMouseLeave | app/src/components/dashboard/timeline/timeline.tsx:483-485 | the hover clears and the active point is the selection |
| TimelineView.TimelineState.ClearSelection | app/src/components/dashboard/timeline/timeline.tsx:838 | the selection clears and the active point is the hovered one |
| TimelineView.TimelineState.CheckAlignment | app/src/components/dashboard/timeline/timeline.tsx:636-647 | only the alignment selection changes, as `Check` says |
| TimelineView.TimelineState.CheckDirectorate | app/src/components/dashboard/timeline/timeline.tsx:674-687 | only the directorate selection changes, as `Check` says |
| TimelineView.TimelineState.CheckDivision | app/src/components/dashboard/timeline/timeline.tsx:704-715 | only the division selection changes, as `Check` says |
| TimelineView.TimelineState.SetSearchQuery | app/src/components/dashboard/timeline/timeline.tsx:539 | only the query changes |
| TimelineView.TimelineState.ClearAllFilters | app/src/components/dashboard/timeline/timeline.tsx:401-406 | all selections and the query are empty, the active-filter count is 0, and every publication passes |
| TimelineView.TimelineState.SetViewMode | app/src/components/dashboard/timeline/timeline.tsx:561-581 | only the view mode changes |
| TimelineView.TimelineState.ToggleSortOrder | app/src/components/dashboard/timeline/timeline.tsx:598 | only the sort direction flips |
| HtmlEscape.ReplaceAll | testing/generate.js:127-131 | after replacing every `c` by a text without `c`, no `c` is left |
| HtmlEscape.EscapeChar | testing/utils/generateHtml.js:119-123 | a special character becomes an entity starting with `&`; any other character stays; neither contains `<`, `>`, `"` or `'` |
| HtmlEscape.EscapeEach | testing/utils/generateHtml.js:117-124 | the per-character escape contains no `<`, `>`, `"`, `'` and is no shorter than its input |
| HtmlEscape.EscapeHtmlAppend | testing/generate.js:125-132 | escaping distributes over concatenation |
| HtmlEscape.EscapeHtmlChar | testing/generate.js:126-131 | on one character the five-step chain yields that character's entity, escaped once |
| HtmlEscape.EscapeHtmlIsPerChar | testing/generate.js:126-131 | because `&` is replaced first, the chain equals the per-character escape, so nothing is escaped twice |
| HtmlEscape.EscapeHtmlMarkupFree | testing/generate.js:125-132 | `escapeHtml` output contains none of `<`, `>`, `"`, `'` |
| HtmlEscape.EscapeHtmlIdentity | testing/utils/generateHtml.js:117-124 | `escapeHtml` leaves a string without the five special characters unchanged |
| HtmlEscape.Unescape | testing/utils/generateHtml.js:117-124 | decoding the five entities never lengthens the text |
| HtmlEscape.UnescapeEscapeHtml | testing/utils/generateHtml.js:117-124 | decoding the escaped text gives back the input |
| HtmlEscape.EscapeHtmlInjective | testing/generate.js:125-132 | distinct inputs escape to distinct outputs |
| AxeResults.Show | testing/utils/generateHtml.js:24 | a missing impact interpolates as "null"; a present one as itself |
| AxeResults.MapRenderSplit | testing/utils/generateHtml.js:9-31 | the joined rendering holds item i's rendering between those of the items before and after it |
| AxeResults.ConcatAppend | testing/utils/generateHtml.js:9-31 | `join('')` distributes over splitting the list |
| AxeResults.ViolationSections | testing/utils/generateHtml.js:9-31 | the violation list is the blocks before violation i, then violation i's block, then the rest: one section per violation, in order |
| AxeResults.NodeSections | testing/utils/generateHtml.js:10-19 | a violation's element list is likewise one node block per node, in order |
| AxeResults.ViolationsHtmlStart | testing/utils/generateHtml.js:21-22 | a non-empty violation list starts with its first block's line break |
| AxeResults.NodeHtmlTags | testing/utils/generateHtml.js:11-18 | a node block has exactly the template's `<` characters, whatever the element's markup and summary contain |
| AxeResults.NodeShowsEscaped | testing/utils/generateHtml.js:14-16 | an element block shows the escaped markup and the escaped failure summary, each up to its closing `</pre>` |
| AxeResults.ViolationListsNodes | testing/utils/generateHtml.js:21-29 | every affected element's block occurs in its violation's block |
| AxeResults.SummaryIncludes | testing/utils/generateHtml.js:93-101 | every summary row shows `<strong>caption:</strong> value`, followed by `<br>` or, after the last row, by the end of the paragraph |
| AxeResults.ViolationsPartLists | testing/utils/generateHtml.js:104-106 | when there are violations, each violation's block occurs in the violations part |
| AxeResults.ViolationsPartIsMessage | testing/utils/generateHtml.js:104-106 | a message that does not begin with a line break is shown iff there are no violations |
| AxeHtmlReport.NoViolationsIffEmpty | testing/utils/generateHtml.js:104-106 | the no-violations message appears iff `violations` is empty |
| AxeHtmlReport.SummaryShown | testing/utils/generateHtml.js:96-99 | the page shows the lengths of violations, passes, incomplete and inapplicable, each after its caption and followed by `<br>` or the paragraph's end |
| AxeHtmlReport.ViolationsShown | testing/utils/generateHtml.js:9-31 | when there are violations, every violation's block, with its element blocks, occurs in the page |
| AxeReport.EffectiveImpact | testing/generate.js:10 | the impact falls back from the violation's impact to the first check's impact, then to "unknown" |
| AxeReport.SeverityCountsMeaning | testing/generate.js:9-13 | the reduce counts each effective impact's occurrences (at least 1) and holds no other key |
| AxeReport.SeverityShown | testing/generate.js:101-104 | `severityCounts[s] \|\| 0` is the number of violations with severity s, 0 when absent |
| AxeReport.TallyTotalIsSumOfCounts | testing/generate.js:9-13 | adding the counts of given keys equals summing those keys' occurrence counts |
| AxeReport.SeverityCountsTotal | testing/generate.js:9-13 | the tally's keys are distinct, match the map's keys, and their counts sum to `violations.length` |
| AxeReport.CountsAndOutside | testing/generate.js:100-104 | counts of listed names plus the unlisted rest make up the whole list, and the rest is 0 iff every value is listed |
| AxeReport.ListedSeveritiesDistinct | testing/generate.js:101-104 | the four listed severities are distinct |
| AxeReport.ListedTotalIsTallyTotal | testing/generate.js:101-104 | adding the four listed severities equals the tally total over them |
| AxeReport.ListedSeveritiesTotal | testing/generate.js:100-104 | Critical + Serious + Moderate + Minor plus the unlisted violations equals the total, and the four alone sum to the total iff every impact is listed |
| AxeReport.SummarySeverities | testing/generate.js:100-104 | the summary shows the total, then the count of each of the four severities |
| AxeReport.HtmlSeveritiesShown | testing/generate.js:100-104 | the HTML page shows the total and, for each listed severity, the number of violations with that effective impact |
| AxeReport.HtmlLengthsShown | testing/generate.js:105-107 | the HTML page shows the passes, incomplete and inapplicable lengths |
| AxeReport.HtmlViolationsShown | testing/generate.js:112-114 | when there are violations, every violation's block occurs in the page body |
| AxeReport.HtmlBodyInPage | testing/generate.js:92-115 | the page body occurs in the page |
| AxeReport.NoViolationsIffEmpty | testing/generate.js:268-270 | in both the HTML and the Markdown report, the no-violations text stands in place of the list iff `violations` is empty |
| AxeReport.TagsText | testing/generate.js:209 | no tags or empty tags print "all"; otherwise the tags joined by ", " |
| AxeReport.CombinedHtmlShowsTags | testing/generate.js:209 | the combined HTML report names the tags it was run with |
| AxeReport.CombinedHtmlShowsPages | testing/generate.js:137-147 | the combined HTML report holds every tested page's complete report body |
| AxeReport.NodeMarkdownVerbatim | testing/generate.js:227-237 | the Markdown element section shows the markup and failure summary verbatim, unescaped |
| AxeReport.ViolationMarkdownListsNodes | testing/generate.js:240-248 | every affected element's section occurs in its violation's section |
| AxeReport.MarkdownViolationsShown | testing/generate.js:268-270 | when there are violations, every violation's section occurs in the Markdown report |
| AxeReport.MarkdownSeveritiesShown | testing/generate.js:258-262 | the Markdown report shows the total and, for each listed severity, the number of violations with that effective impact, one per line |
| AxeReport.MarkdownLengthsShown | testing/generate.js:263-265 | the Markdown report shows the passes, incomplete and inapplicable lengths |
| AxeReport.MarkdownSectionIsBody | testing/generate.js:276-280 | dropping the first two lines of a route's Markdown report leaves its body, starting "Report generated on " |
| AxeReport.TagsLine | testing/generate.js:285 | no tags or empty tags print "Tested with all tags"; otherwise "Tested with tags: " and the joined tags |
| AxeReport.CombinedMarkdownShowsPages | testing/generate.js:276-287 | the combined Markdown report holds its tags line and every tested page's report after its title |

## Left out

- Network and storage: loading the CSV over the network, S3 access, stream decoding and
  CSV parsing, and the health endpoint. These are I/O with no local logic. Every operation
  here takes the decoded publication table as its input.
- React rendering, memoisation, effects and styling classes. Only the data each component
  derives and the state its handlers change are modelled. Sidebar, loading, summary-card,
  pie and stacked-bar components only display data.
- Dates are integer timestamps. Date parsing, the `format`/`startOfWeek` bucket keys and
  the "one year ago" cutoff are parameters, because they are library and clock calls.
  Week-header text (`formatTimeGroupHeader`) and `toLocaleString` output are not modelled.
- `localeCompare` and JavaScript's default string order are abstract. The tree map takes
  any total preorder on names. `sort()` on strings uses lexicographic order on characters,
  not UTF-16 code units.
- Object key order: `Object.entries` lists integer-like keys first in ascending order. The
  model keeps insertion order, which is right for non-numeric names.
- Floating point: the tree-map scale is a `real`, so rounding of `× 0.9` and `× 1.1` is not
  modelled. The heat-map `getColor` intensity is not modelled. Pixel coordinates of the
  drag handlers are integers.
- `toLowerCase` maps ASCII letters only. Unicode case mapping is not modelled.
- Text layout of the reports: template indentation and the `<style>` sheets are not
  reproduced. Line breaks, tags and interpolated values are.
- AxeReport.GenerateCombinedHtmlReport: the section body is the body the route's report was
  built from, not the regular-expression extraction of it. The two differ when unescaped
  violation text contains `</body>`.
- One clock reading per combined report. The source reads the clock again for each route.
- The `passes`, `incomplete` and `inapplicable` arrays are kept as their lengths, the only
  thing the reports read.
- Playwright driving, file writing and the route-name sanitisation of the test runner.
- The timeline's details panel, heat-map titles and tooltip texts are display only.
- Tree-map nodes whose `children` is absent and nodes with an empty `children` list are
  both an empty sequence.
- TreeMapView.SortParents: two "Other" nodes compare as equal in the model. The source's
  comparator answers 1 for both orders, so their relative order depends on the sort
  implementation.
- PublicationTimeline.TimelineData: requires every in-range entry's output type to be among
  `outputTypes`. For other types the source adds to a missing key and produces `NaN`.
- Inherited property names. JavaScript objects used as dictionaries also answer the names
  of `Object.prototype` (`constructor`, `toString`, `__proto__`, ...). The model's maps do
  not, so it assumes no field value, output type, alignment, division or group name is
  such a name. With one, the source behaves differently:
  - the tallies and the timeline counters would add to an inherited function;
  - the tree map's `!po2Groups[name]` test would fail and `push` would throw;
  - a `__proto__` key would be dropped from `Object.entries` or replace the prototype;
  - the `chartColors[alignment]` lookup would return an inherited value.
- Breadcrumbs.DisplayName: upper-cases only the ASCII letters `a`-`z` and measures length in
  characters. `toUpperCase` maps Unicode letters, some to several characters (`ß` to
  `SS`), and `part.length` counts UTF-16 code units. So the kept length and the 16-unit
  threshold hold for ASCII segments only.
