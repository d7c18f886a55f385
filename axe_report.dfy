/**
 * The accessibility-report generators of the test runner: per-page HTML and
 * Markdown reports with a per-severity tally, and the combined reports that
 * put several pages together. Clock readings are parameters; the page head's
 * `<style>` sheet is not modelled.
 */
module AxeReport {
  import opened Wrappers
  import opened Seqs
  import opened Text
  import opened AxeResults

  // ---------------------------------------------------------------- severity

  /** A JavaScript-truthy string: present and non-empty. */
  predicate Truthy(s: Option<string>) {
    s.Some? && s.value != ""
  }

  /** `violation.nodes[0]?.any[0]?.impact`. */
  function FirstCheckImpact(v: Violation): Option<string> {
    if |v.nodes| > 0 && |v.nodes[0].any| > 0 then v.nodes[0].any[0].impact else None
  }

  /**
   * The severity a violation is counted under: its own impact, else that of
   * the first check of its first element, else `'unknown'`.
   */
  function EffectiveImpact(v: Violation): (r: string)
    ensures r != ""
    ensures Truthy(v.impact) ==> r == v.impact.value
    ensures !Truthy(v.impact) && Truthy(FirstCheckImpact(v)) ==> r == FirstCheckImpact(v).value
    ensures !Truthy(v.impact) && !Truthy(FirstCheckImpact(v)) ==> r == "unknown"
  {
    if Truthy(v.impact) then v.impact.value
    else if Truthy(FirstCheckImpact(v)) then FirstCheckImpact(v).value
    else "unknown"
  }

  function Impacts(vs: seq<Violation>): (r: seq<string>)
    ensures |r| == |vs|
    ensures forall i :: 0 <= i < |vs| ==> r[i] == EffectiveImpact(vs[i])
  {
    seq(|vs|, i requires 0 <= i < |vs| => EffectiveImpact(vs[i]))
  }

  /** `acc[k] || 0`. */
  function CountOr0(acc: map<string, nat>, k: string): nat {
    if k in acc then acc[k] else 0
  }

  /** The `reduce` that counts violations per effective impact. */
  function SeverityCounts(vs: seq<Violation>): map<string, nat> {
    if |vs| == 0 then map[]
    else
      var acc := SeverityCounts(vs[..|vs| - 1]);
      var k := EffectiveImpact(vs[|vs| - 1]);
      acc[k := CountOr0(acc, k) + 1]
  }

  /** The tally has a key for each severity that occurs, holding its number of violations. */
  lemma {:induction false} SeverityCountsMeaning(vs: seq<Violation>, k: string)
    ensures k in SeverityCounts(vs) <==> k in Impacts(vs)
    ensures k in SeverityCounts(vs) ==> SeverityCounts(vs)[k] == Count(Impacts(vs), k) >= 1
  {
    if |vs| > 0 {
      var n := |vs| - 1;
      SeverityCountsMeaning(vs[..n], k);
      assert Impacts(vs) == Impacts(vs[..n]) + [EffectiveImpact(vs[n])];
    }
  }

  /** A severity's line shows its number of violations, `0` when none has it. */
  lemma SeverityShown(vs: seq<Violation>, severity: string)
    ensures CountOr0(SeverityCounts(vs), severity) == Count(Impacts(vs), severity)
  {
    SeverityCountsMeaning(vs, severity);
  }

  /** Sum of `acc[k] || 0` over the listed keys. */
  function TallyTotal(keys: seq<string>, acc: map<string, nat>): nat {
    if |keys| == 0 then 0 else TallyTotal(keys[..|keys| - 1], acc) + CountOr0(acc, keys[|keys| - 1])
  }

  lemma {:induction false} TallyTotalIsSumOfCounts(keys: seq<string>, vs: seq<Violation>)
    ensures TallyTotal(keys, SeverityCounts(vs)) == SumOfCounts(keys, Impacts(vs))
  {
    if |keys| > 0 {
      TallyTotalIsSumOfCounts(keys[..|keys| - 1], vs);
      SeverityShown(vs, keys[|keys| - 1]);
    }
  }

  /**
   * The tally's keys, each once, are the severities that occur, and their
   * counts add up to the number of violations.
   */
  lemma SeverityCountsTotal(vs: seq<Violation>)
    ensures var keys := Dedup(Impacts(vs));
      Distinct(keys) &&
      (forall k :: k in keys <==> k in SeverityCounts(vs)) &&
      TallyTotal(keys, SeverityCounts(vs)) == |vs|
  {
    var keys := Dedup(Impacts(vs));
    forall k
      ensures k in keys <==> k in SeverityCounts(vs)
    {
      SeverityCountsMeaning(vs, k);
    }
    TallyTotalIsSumOfCounts(keys, vs);
    SumOfCountsIsLength(keys, Impacts(vs));
  }

  /** The severities with a line of their own in the summary. */
  const ListedSeverities: seq<string> := ["critical", "serious", "moderate", "minor"]

  /** Number of elements of `s` that are not among `names`. */
  function Outside(names: seq<string>, s: seq<string>): nat {
    if |s| == 0 then 0 else Outside(names, s[..|s| - 1]) + (if s[|s| - 1] in names then 0 else 1)
  }

  lemma {:induction false} CountsAndOutside(names: seq<string>, s: seq<string>)
    requires Distinct(names)
    ensures SumOfCounts(names, s) + Outside(names, s) == |s|
    ensures Outside(names, s) == 0 <==> forall i :: 0 <= i < |s| ==> s[i] in names
  {
    if |s| == 0 {
      SumOfCountsEmpty(names, s);
    } else {
      var n := |s| - 1;
      assert s == s[..n] + [s[n]];
      CountsAndOutside(names, s[..n]);
      SumOfCountsSnoc(names, s[..n], s[n]);
    }
  }

  lemma ListedSeveritiesDistinct()
    ensures Distinct(ListedSeverities)
  {
    var names := ListedSeverities;
    assert names[0][1] != names[1][1] && names[0][1] != names[2][1] && names[0][1] != names[3][1];
    assert names[1][0] != names[2][0] && names[1][0] != names[3][0] && names[2][1] != names[3][1];
  }

  /** The four summed one by one. */
  function ListedTotal(acc: map<string, nat>): nat {
    CountOr0(acc, "critical") + CountOr0(acc, "serious") + CountOr0(acc, "moderate") + CountOr0(acc, "minor")
  }

  lemma ListedTotalIsTallyTotal(acc: map<string, nat>)
    ensures TallyTotal(ListedSeverities, acc) == ListedTotal(acc)
  {
    var names := ListedSeverities;
    var n3, n2, n1 := names[..3], names[..3][..2], names[..3][..2][..1];
    assert n1 == ["critical"] && n1[..0] == [];
    assert TallyTotal(n1, acc) == CountOr0(acc, "critical");
    assert TallyTotal(n2, acc) == TallyTotal(n1, acc) + CountOr0(acc, "serious");
    assert TallyTotal(n3, acc) == TallyTotal(n2, acc) + CountOr0(acc, "moderate");
    assert TallyTotal(names, acc) == TallyTotal(n3, acc) + CountOr0(acc, "minor");
  }

  /**
   * The Critical, Serious, Moderate and Minor lines add up to the total minus
   * the violations counted under any other severity (such as `'unknown'`); they
   * add up to the total exactly when every violation has one of the four.
   */
  lemma ListedSeveritiesTotal(vs: seq<Violation>)
    ensures ListedTotal(SeverityCounts(vs)) + Outside(ListedSeverities, Impacts(vs)) == |vs|
    ensures ListedTotal(SeverityCounts(vs)) == |vs|
      <==> (forall i :: 0 <= i < |vs| ==> EffectiveImpact(vs[i]) in ListedSeverities)
  {
    var impacts := Impacts(vs);
    ListedSeveritiesDistinct();
    CountsAndOutside(ListedSeverities, impacts);
    TallyTotalIsSumOfCounts(ListedSeverities, vs);
    ListedTotalIsTallyTotal(SeverityCounts(vs));
    assert ListedTotal(SeverityCounts(vs)) == SumOfCounts(ListedSeverities, impacts);
    assert (forall i :: 0 <= i < |impacts| ==> impacts[i] in ListedSeverities)
      <==> (forall i :: 0 <= i < |vs| ==> EffectiveImpact(vs[i]) in ListedSeverities);
  }

  // ------------------------------------------------------------- HTML report

  const NoViolationsMessage: string := "<p class=\"no-violations\">" + "No violations found!</p>"

  /** The summary: the total, the four listed severities (0 when absent) and the other lengths. */
  function SummaryRows(results: Results): seq<SummaryRow> {
    var counts := SeverityCounts(results.violations);
    [SummaryRow("Total Violations", |results.violations|),
     SummaryRow("Critical", CountOr0(counts, "critical")),
     SummaryRow("Serious", CountOr0(counts, "serious")),
     SummaryRow("Moderate", CountOr0(counts, "moderate")),
     SummaryRow("Minor", CountOr0(counts, "minor")),
     SummaryRow("Passes", results.passes),
     SummaryRow("Incomplete", results.incomplete),
     SummaryRow("Inapplicable", results.inapplicable)]
  }

  /** The pieces of the per-page `<body>` template; the summary box is piece 5. */
  function HtmlBodyParts(route: string, results: Results, now: string): seq<string> {
    ["\n<h1>Accessibility Report</h1>\n<p>Report generated on ", now, "</p>\n<h2>Page: ", route, "</h2>\n\n",
      SummaryHtml(SummaryRows(results)),
      "\n<h2>Violations</h2>\n", ViolationsPart(results.violations, NoViolationsMessage), "\n"]
  }

  /** The `<body>` content of the per-page HTML report. */
  function HtmlBody(route: string, results: Results, now: string): string {
    Concat(HtmlBodyParts(route, results, now))
  }

  /** The pieces of the per-page HTML report; the body is piece 5. */
  function HtmlParts(route: string, results: Results, now: string): seq<string> {
    ["\n<!DOCTYPE html>\n<html lang=\"en\">\n<head>\n<meta charset=\"UTF-8\">\n",
      "<meta name=\"viewport\" content=\"width=device-width, initial-scale=1.0\">\n",
      "<title>Accessibility Report for ", route, "</title>\n</head>\n<body>",
      HtmlBody(route, results, now), "</body>\n</html>\n"]
  }

  /** `generateHtmlReport(route, results)`, the clock reading `now` given. */
  function GenerateHtmlReport(route: string, results: Results, now: string): string {
    Concat(HtmlParts(route, results, now))
  }

  /** Each severity line shows that severity's count, and 0 when no violation has it. */
  lemma SummarySeverities(results: Results)
    ensures SummaryRows(results)[0].value == |results.violations|
    ensures SummaryRows(results)[1] == SummaryRow("Critical", Count(Impacts(results.violations), "critical"))
    ensures SummaryRows(results)[2] == SummaryRow("Serious", Count(Impacts(results.violations), "serious"))
    ensures SummaryRows(results)[3] == SummaryRow("Moderate", Count(Impacts(results.violations), "moderate"))
    ensures SummaryRows(results)[4] == SummaryRow("Minor", Count(Impacts(results.violations), "minor"))
  {
    var vs := results.violations;
    SeverityShown(vs, "critical");
    SeverityShown(vs, "serious");
    SeverityShown(vs, "moderate");
    SeverityShown(vs, "minor");
  }

  lemma HtmlRowShown(route: string, results: Results, now: string, i: nat, caption: string, value: nat, next: string)
    requires i < 8
    requires caption == SummaryRows(results)[i].caption
    requires value == SummaryRows(results)[i].value
    requires next == if i + 1 < 8 then "<br>\n" else "\n</p>"
    ensures Includes(GenerateHtmlReport(route, results, now), "<strong>" + caption + ":</strong> " + NatToString(value) + next)
  {
    var t := "<strong>" + caption + ":</strong> " + NatToString(value) + next;
    var summary := SummaryHtml(SummaryRows(results));
    SummaryIncludes(SummaryRows(results), i);
    SummaryInPage(route, results, now);
    IncludesTransitive(GenerateHtmlReport(route, results, now), summary, t);
  }

  lemma SummaryInPage(route: string, results: Results, now: string)
    ensures Includes(GenerateHtmlReport(route, results, now), SummaryHtml(SummaryRows(results)))
  {
    var summary := SummaryHtml(SummaryRows(results));
    IncludesSelf(summary);
    assert HtmlBodyParts(route, results, now)[5] == summary;
    ConcatIncludes(HtmlBodyParts(route, results, now), 5, summary);
    HtmlBodyInPage(route, results, now);
    IncludesTransitive(GenerateHtmlReport(route, results, now), HtmlBody(route, results, now), summary);
  }

  /**
   * The HTML page shows the total and, for each of the four listed
   * severities, the number of violations counted under it, each followed by
   * the summary's line break.
   */
  lemma HtmlSeveritiesShown(route: string, results: Results, now: string)
    ensures Includes(GenerateHtmlReport(route, results, now),
      "<strong>" + "Total Violations" + ":</strong> " + NatToString(|results.violations|) + "<br>\n")
    ensures Includes(GenerateHtmlReport(route, results, now),
      "<strong>" + "Critical" + ":</strong> " + NatToString(Count(Impacts(results.violations), "critical")) + "<br>\n")
    ensures Includes(GenerateHtmlReport(route, results, now),
      "<strong>" + "Serious" + ":</strong> " + NatToString(Count(Impacts(results.violations), "serious")) + "<br>\n")
    ensures Includes(GenerateHtmlReport(route, results, now),
      "<strong>" + "Moderate" + ":</strong> " + NatToString(Count(Impacts(results.violations), "moderate")) + "<br>\n")
    ensures Includes(GenerateHtmlReport(route, results, now),
      "<strong>" + "Minor" + ":</strong> " + NatToString(Count(Impacts(results.violations), "minor")) + "<br>\n")
  {
    var vs := results.violations;
    SummarySeverities(results);
    HtmlRowShown(route, results, now, 0, "Total Violations", |vs|, "<br>\n");
    HtmlRowShown(route, results, now, 1, "Critical", Count(Impacts(vs), "critical"), "<br>\n");
    HtmlRowShown(route, results, now, 2, "Serious", Count(Impacts(vs), "serious"), "<br>\n");
    HtmlRowShown(route, results, now, 3, "Moderate", Count(Impacts(vs), "moderate"), "<br>\n");
    HtmlRowShown(route, results, now, 4, "Minor", Count(Impacts(vs), "minor"), "<br>\n");
  }

  /** The HTML page shows the passes, incomplete and inapplicable counts. */
  lemma HtmlLengthsShown(route: string, results: Results, now: string)
    ensures Includes(GenerateHtmlReport(route, results, now),
      "<strong>" + "Passes" + ":</strong> " + NatToString(results.passes) + "<br>\n")
    ensures Includes(GenerateHtmlReport(route, results, now),
      "<strong>" + "Incomplete" + ":</strong> " + NatToString(results.incomplete) + "<br>\n")
    ensures Includes(GenerateHtmlReport(route, results, now),
      "<strong>" + "Inapplicable" + ":</strong> " + NatToString(results.inapplicable) + "\n</p>")
  {
    HtmlRowShown(route, results, now, 5, "Passes", results.passes, "<br>\n");
    HtmlRowShown(route, results, now, 6, "Incomplete", results.incomplete, "<br>\n");
    HtmlRowShown(route, results, now, 7, "Inapplicable", results.inapplicable, "\n</p>");
  }

  /** When there are violations, each violation's block occurs in the page's body. */
  lemma HtmlViolationsShown(route: string, results: Results, now: string, i: nat)
    requires i < |results.violations|
    ensures Includes(HtmlBody(route, results, now), ViolationHtml(results.violations[i]))
  {
    var t := ViolationHtml(results.violations[i]);
    ViolationsPartLists(results.violations, NoViolationsMessage, i);
    assert HtmlBodyParts(route, results, now)[7] == ViolationsPart(results.violations, NoViolationsMessage);
    ConcatIncludes(HtmlBodyParts(route, results, now), 7, t);
  }

  /** ... and in the page. */
  lemma HtmlBodyInPage(route: string, results: Results, now: string)
    ensures Includes(GenerateHtmlReport(route, results, now), HtmlBody(route, results, now))
  {
    IncludesSelf(HtmlBody(route, results, now));
    assert HtmlParts(route, results, now)[5] == HtmlBody(route, results, now);
    ConcatIncludes(HtmlParts(route, results, now), 5, HtmlBody(route, results, now));
  }

  // ----------------------------------------------------------- combined HTML

  /** One tested page and its results. */
  datatype RouteResult = RouteResult(route: string, results: Results)

  /** `tags && tags.length ? tags.join(', ') : 'all'`. */
  function TagsText(tags: Option<seq<string>>): (r: string)
    ensures (tags.None? || |tags.value| == 0) ==> r == "all"
    ensures tags.Some? && |tags.value| > 0 ==> r == Join(tags.value, ", ")
  {
    if tags.Some? && |tags.value| > 0 then Join(tags.value, ", ") else "all"
  }

  function PageSection(rr: RouteResult, now: string): string {
    "\n<section class=\"page-report\">\n" + HtmlBody(rr.route, rr.results, now) + "\n</section>\n<hr />\n"
  }

  /**
   * `generateCombinedHtmlReport(routeResults, tags)`: one section per page,
   * holding that page's report body, separated by line breaks.
   */
  function GenerateCombinedHtmlReport(routeResults: seq<RouteResult>, tags: Option<seq<string>>, now: string): string {
    Concat(CombinedHtmlParts(routeResults, tags, now))
  }

  /** The pieces of the combined HTML report; the tags are piece 7 and the page sections piece 9. */
  function CombinedHtmlParts(routeResults: seq<RouteResult>, tags: Option<seq<string>>, now: string): seq<string> {
    ["\n<!DOCTYPE html>\n<html lang=\"en\">\n<head>\n<meta charset=\"UTF-8\">\n",
      "<meta name=\"viewport\" content=\"width=device-width, initial-scale=1.0\">\n",
      "<title>Combined Accessibility Report</title>\n</head>\n<body>\n",
      "<h1>Combined Accessibility Report</h1>\n<p>Report generated on ", now, "</p>\n",
      "<p>Tested with tags: ", TagsText(tags), "</p>\n",
      Join(MapRender(routeResults, rr => PageSection(rr, now)), "\n"), "\n</body>\n</html>\n"]
  }

  /** The combined HTML report holds, for every tested page, that page's complete report body. */
  lemma CombinedHtmlShowsPages(routeResults: seq<RouteResult>, tags: Option<seq<string>>, now: string, k: nat)
    requires k < |routeResults|
    ensures Includes(GenerateCombinedHtmlReport(routeResults, tags, now),
      HtmlBody(routeResults[k].route, routeResults[k].results, now))
  {
    var parts := CombinedHtmlParts(routeResults, tags, now);
    SectionsShowPages(routeResults, now, k);
    assert parts[9] == Join(MapRender(routeResults, rr => PageSection(rr, now)), "\n");
    ConcatIncludes(parts, 9, HtmlBody(routeResults[k].route, routeResults[k].results, now));
  }

  /** The combined HTML report names the tags it was run with. */
  lemma CombinedHtmlShowsTags(routeResults: seq<RouteResult>, tags: Option<seq<string>>, now: string)
    ensures Includes(GenerateCombinedHtmlReport(routeResults, tags, now), "<p>Tested with tags: " + TagsText(tags))
  {
    var parts := CombinedHtmlParts(routeResults, tags, now);
    var tagsText := "<p>Tested with tags: " + TagsText(tags);
    IncludesSelf(tagsText);
    assert parts[6] + parts[7] == tagsText;
    ConcatIncludesPair(parts, 6, tagsText);
  }

  lemma SectionsShowPages(routeResults: seq<RouteResult>, now: string, k: nat)
    requires k < |routeResults|
    ensures Includes(Join(MapRender(routeResults, rr => PageSection(rr, now)), "\n"),
      HtmlBody(routeResults[k].route, routeResults[k].results, now))
  {
    var rr := routeResults[k];
    var body := HtmlBody(rr.route, rr.results, now);
    var sections := MapRender(routeResults, rr => PageSection(rr, now));
    JoinIncludesPart(sections, "\n", k);
    IncludesSelf(body);
    IncludesWithin("\n<section class=\"page-report\">\n", body, "\n</section>\n<hr />\n", body);
    assert sections[k] == PageSection(rr, now);
    IncludesTransitive(Join(sections, "\n"), sections[k], body);
  }

  // ---------------------------------------------------------- Markdown report

  /** One affected element: its markup and failure summary in code fences. */
  function NodeMarkdown(node: Node): string {
    Concat(NodeMarkdownParts(node))
  }

  function NodeMarkdownParts(node: Node): seq<string> {
    ["\n#### Element:\n```html\n", node.html, "\n```\n\n#### Failure Summary:\n```\n", node.failureSummary, "\n```\n"]
  }

  /** Unlike the HTML report, the Markdown report shows the markup and summary verbatim. */
  lemma NodeMarkdownVerbatim(node: Node)
    ensures Includes(NodeMarkdown(node), node.html)
    ensures Includes(NodeMarkdown(node), node.failureSummary)
  {
    IncludesSelf(node.html);
    IncludesSelf(node.failureSummary);
    ConcatIncludes(NodeMarkdownParts(node), 1, node.html);
    ConcatIncludes(NodeMarkdownParts(node), 3, node.failureSummary);
  }

  /** One violation with its affected elements, separated by line breaks. */
  function ViolationMarkdown(v: Violation): string {
    Concat(ViolationMarkdownParts(v))
  }

  /** The pieces of a violation's section; the element list is piece 11. */
  function ViolationMarkdownParts(v: Violation): seq<string> {
    ["\n### ", v.id, ": ", v.help,
      "\n- **Impact:** ", Show(v.impact),
      "\n- **Description:** ", v.description,
      "\n- **Help URL:** ", v.helpUrl,
      "\n\n#### Affected Elements:\n", Join(MapRender(v.nodes, NodeMarkdown), "\n"), "\n"]
  }

  /** Every affected element's section occurs in its violation's section. */
  lemma ViolationMarkdownListsNodes(v: Violation, j: nat)
    requires j < |v.nodes|
    ensures Includes(ViolationMarkdown(v), NodeMarkdown(v.nodes[j]))
  {
    var nodes := MapRender(v.nodes, NodeMarkdown);
    JoinIncludesPart(nodes, "\n", j);
    assert ViolationMarkdownParts(v)[11] == Join(nodes, "\n");
    ConcatIncludes(ViolationMarkdownParts(v), 11, NodeMarkdown(v.nodes[j]));
  }

  const NoViolationsMarkdown: string := "**No violations found!**"

  function ViolationsMarkdown(vs: seq<Violation>): string {
    if |vs| == 0 then NoViolationsMarkdown else Join(MapRender(vs, ViolationMarkdown), "\n---\n")
  }

  function SummaryMarkdown(rows: seq<SummaryRow>): string {
    Join(MapRender(rows, (row: SummaryRow) => "- **" + row.caption + ":** " + NatToString(row.value)), "\n")
  }

  /** Everything after the report's title line. */
  function MarkdownBody(route: string, results: Results, now: string): string {
    Concat(MarkdownBodyParts(route, results, now))
  }

  /** The pieces of the Markdown body; the summary is piece 5 and the violations piece 7. */
  function MarkdownBodyParts(route: string, results: Results, now: string): seq<string> {
    ["Report generated on ", now, "\n\n## Page: ", route, "\n\n## Summary\n",
      SummaryMarkdown(SummaryRows(results)), "\n\n## Violations\n", ViolationsMarkdown(results.violations), "\n"]
  }

  const MarkdownTitle := "# Accessibility Report"

  /** `generateMarkdownReport(route, results)`: an empty first line, the title, then the body. */
  function GenerateMarkdownReport(route: string, results: Results, now: string): string {
    "\n" + MarkdownTitle + "\n" + MarkdownBody(route, results, now)
  }

  /** A join of parts starts with the first part's first character. */
  lemma JoinStart(parts: seq<string>, sep: string)
    requires |parts| > 0 && |parts[0]| > 0
    ensures |Join(parts, sep)| > 0 && Join(parts, sep)[0] == parts[0][0]
  {
  }

  /**
   * The no-violations text is what a report shows in place of the list
   * exactly when there are no violations, in both the HTML and the Markdown
   * report.
   */
  lemma NoViolationsIffEmpty(results: Results)
    ensures ViolationsPart(results.violations, NoViolationsMessage) == NoViolationsMessage
      <==> |results.violations| == 0
    ensures ViolationsMarkdown(results.violations) == NoViolationsMarkdown <==> |results.violations| == 0
  {
    assert NoViolationsMessage[0] == '<';
    ViolationsPartIsMessage(results.violations, NoViolationsMessage);
    var vs := results.violations;
    if |vs| > 0 {
      var parts := MapRender(vs, ViolationMarkdown);
      assert parts[0] == ViolationMarkdown(vs[0]);
      assert parts[0][0] == '\n';
      JoinStart(parts, "\n---\n");
      assert NoViolationsMarkdown[0] == '*';
    }
  }

  /** Text in the Markdown body occurs in the Markdown report. */
  lemma MarkdownBodyInReport(route: string, results: Results, now: string, t: string)
    requires Includes(MarkdownBody(route, results, now), t)
    ensures Includes(GenerateMarkdownReport(route, results, now), t)
  {
    var body := MarkdownBody(route, results, now);
    IncludesWithin("\n" + MarkdownTitle + "\n", body, "", t);
    assert "\n" + MarkdownTitle + "\n" + body + "" == GenerateMarkdownReport(route, results, now);
  }

  /** When there are violations, each violation's section occurs in the Markdown report. */
  lemma MarkdownViolationsShown(route: string, results: Results, now: string, i: nat)
    requires i < |results.violations|
    ensures Includes(GenerateMarkdownReport(route, results, now), ViolationMarkdown(results.violations[i]))
  {
    var vs := results.violations;
    var t := ViolationMarkdown(vs[i]);
    JoinIncludesPart(MapRender(vs, ViolationMarkdown), "\n---\n", i);
    assert MarkdownBodyParts(route, results, now)[7] == ViolationsMarkdown(vs);
    ConcatIncludes(MarkdownBodyParts(route, results, now), 7, t);
    MarkdownBodyInReport(route, results, now, t);
  }

  lemma MarkdownRowShown(route: string, results: Results, now: string, i: nat, caption: string, value: nat, next: string)
    requires i < 8
    requires caption == SummaryRows(results)[i].caption
    requires value == SummaryRows(results)[i].value
    requires next == if i + 1 < 8 then "\n" else "\n\n## Violations\n"
    ensures Includes(GenerateMarkdownReport(route, results, now), "- **" + caption + ":** " + NatToString(value) + next)
  {
    var rows := SummaryRows(results);
    var t := "- **" + caption + ":** " + NatToString(value) + next;
    var lines := MapRender(rows, (row: SummaryRow) => "- **" + row.caption + ":** " + NatToString(row.value));
    JoinIncludes(lines, "\n", "\n\n## Violations\n", i);
    var parts := MarkdownBodyParts(route, results, now);
    assert parts[5] + parts[6] == Join(lines, "\n") + "\n\n## Violations\n";
    ConcatIncludesPair(parts, 5, t);
    MarkdownBodyInReport(route, results, now, t);
  }

  /**
   * The Markdown report shows the total and, for each of the four listed
   * severities, the number of violations counted under it, one per line.
   */
  lemma MarkdownSeveritiesShown(route: string, results: Results, now: string)
    ensures Includes(GenerateMarkdownReport(route, results, now),
      "- **" + "Total Violations" + ":** " + NatToString(|results.violations|) + "\n")
    ensures Includes(GenerateMarkdownReport(route, results, now),
      "- **" + "Critical" + ":** " + NatToString(Count(Impacts(results.violations), "critical")) + "\n")
    ensures Includes(GenerateMarkdownReport(route, results, now),
      "- **" + "Serious" + ":** " + NatToString(Count(Impacts(results.violations), "serious")) + "\n")
    ensures Includes(GenerateMarkdownReport(route, results, now),
      "- **" + "Moderate" + ":** " + NatToString(Count(Impacts(results.violations), "moderate")) + "\n")
    ensures Includes(GenerateMarkdownReport(route, results, now),
      "- **" + "Minor" + ":** " + NatToString(Count(Impacts(results.violations), "minor")) + "\n")
  {
    var vs := results.violations;
    SummarySeverities(results);
    MarkdownRowShown(route, results, now, 0, "Total Violations", |vs|, "\n");
    MarkdownRowShown(route, results, now, 1, "Critical", Count(Impacts(vs), "critical"), "\n");
    MarkdownRowShown(route, results, now, 2, "Serious", Count(Impacts(vs), "serious"), "\n");
    MarkdownRowShown(route, results, now, 3, "Moderate", Count(Impacts(vs), "moderate"), "\n");
    MarkdownRowShown(route, results, now, 4, "Minor", Count(Impacts(vs), "minor"), "\n");
  }

  /** The Markdown report shows the passes, incomplete and inapplicable counts. */
  lemma MarkdownLengthsShown(route: string, results: Results, now: string)
    ensures Includes(GenerateMarkdownReport(route, results, now),
      "- **" + "Passes" + ":** " + NatToString(results.passes) + "\n")
    ensures Includes(GenerateMarkdownReport(route, results, now),
      "- **" + "Incomplete" + ":** " + NatToString(results.incomplete) + "\n")
    ensures Includes(GenerateMarkdownReport(route, results, now),
      "- **" + "Inapplicable" + ":** " + NatToString(results.inapplicable) + "\n\n## Violations\n")
  {
    MarkdownRowShown(route, results, now, 5, "Passes", results.passes, "\n");
    MarkdownRowShown(route, results, now, 6, "Incomplete", results.incomplete, "\n");
    MarkdownRowShown(route, results, now, 7, "Inapplicable", results.inapplicable, "\n\n## Violations\n");
  }

  // ------------------------------------------------------- combined Markdown

  /** `markdown.split('\n').slice(2).join('\n')`: a page's report without its first two lines. */
  function MarkdownSection(rr: RouteResult, now: string): string {
    DropLines(GenerateMarkdownReport(rr.route, rr.results, now), 2)
  }

  /**
   * Dropping two lines removes exactly the empty first line and the title:
   * a page's section starts with its "Report generated on" line and keeps
   * everything after it.
   */
  lemma MarkdownSectionIsBody(rr: RouteResult, now: string)
    ensures MarkdownSection(rr, now) == MarkdownBody(rr.route, rr.results, now)
    ensures IsPrefix("Report generated on ", MarkdownSection(rr, now))
  {
    var body := MarkdownBody(rr.route, rr.results, now);
    assert '\n' !in MarkdownTitle;
    DropBlankAndTitle(MarkdownTitle, body);
    assert body == "Report generated on " + body[20..];
    PrefixOfAppend("Report generated on ", body[20..]);
  }

  /** `'\nTested with tags: ' + tags.join(', ')`, or `'\nTested with all tags'`. */
  function TagsLine(tags: Option<seq<string>>): (r: string)
    ensures (tags.None? || |tags.value| == 0) ==> r == "\nTested with all tags"
    ensures tags.Some? && |tags.value| > 0 ==> r == "\nTested with tags: " + Join(tags.value, ", ")
  {
    if tags.Some? && |tags.value| > 0 then "\nTested with tags: " + Join(tags.value, ", ") else "\nTested with all tags"
  }

  /** `generateCombinedMarkdownReport(routeResults, tags)`. */
  function GenerateCombinedMarkdownReport(routeResults: seq<RouteResult>, tags: Option<seq<string>>, now: string): string {
    Concat(CombinedMarkdownParts(routeResults, tags, now))
  }

  /** The pieces of the combined Markdown report; the tags line is piece 3 and the sections piece 5. */
  function CombinedMarkdownParts(routeResults: seq<RouteResult>, tags: Option<seq<string>>, now: string): seq<string> {
    ["# Combined Accessibility Report\nReport generated on ", now, "\n", TagsLine(tags), "\n\n",
      Join(MapRender(routeResults, rr => MarkdownSection(rr, now)), "\n\n---\n\n")]
  }

  /**
   * The combined Markdown report holds its tags line and, for every tested
   * page, that page's complete report after its title.
   */
  lemma CombinedMarkdownShowsPages(routeResults: seq<RouteResult>, tags: Option<seq<string>>, now: string, k: nat)
    requires k < |routeResults|
    ensures Includes(GenerateCombinedMarkdownReport(routeResults, tags, now), TagsLine(tags))
    ensures Includes(GenerateCombinedMarkdownReport(routeResults, tags, now),
      MarkdownBody(routeResults[k].route, routeResults[k].results, now))
  {
    var parts := CombinedMarkdownParts(routeResults, tags, now);
    IncludesSelf(TagsLine(tags));
    ConcatIncludes(parts, 3, TagsLine(tags));
    var rr := routeResults[k];
    var sections := MapRender(routeResults, rr => MarkdownSection(rr, now));
    MarkdownSectionIsBody(rr, now);
    JoinIncludesPart(sections, "\n\n---\n\n", k);
    assert parts[5] == Join(sections, "\n\n---\n\n");
    ConcatIncludes(parts, 5, MarkdownBody(rr.route, rr.results, now));
  }
}
