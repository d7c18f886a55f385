/**
 * The single-page HTML accessibility report of the report utility module
 * (`generateHtmlReport`): a summary of the four result lengths, then one
 * block per violation or a no-violations message. The clock reading is a
 * parameter; the `<style>` sheet of the page head is not modelled.
 */
module AxeHtmlReport {
  import opened Wrappers
  import opened Text
  import opened AxeResults

  const NoViolationsMessage: string := "<p class=\"no-violations\">" + "No violations found! \U{1F389}</p>"

  /** The summary: the lengths of the four result arrays. */
  function SummaryRows(results: Results): seq<SummaryRow> {
    [SummaryRow("Violations", |results.violations|),
     SummaryRow("Passes", results.passes),
     SummaryRow("Incomplete", results.incomplete),
     SummaryRow("Inapplicable", results.inapplicable)]
  }

  /** The pieces of the report's `<body>` template; the summary box is piece 5. */
  function BodyParts(route: string, results: Results, now: string): seq<string> {
    ["\n<h1>Accessibility Report</h1>\n<p>Report generated on ", now, "</p>\n<h2>Page: ", route, "</h2>\n\n",
      SummaryHtml(SummaryRows(results)),
      "\n<h2>Violations</h2>\n", ViolationsPart(results.violations, NoViolationsMessage), "\n"]
  }

  /** The `<body>` content of the report. */
  function ReportBody(route: string, results: Results, now: string): string {
    Concat(BodyParts(route, results, now))
  }

  /** The pieces of the page; the body is piece 5. */
  function PageParts(route: string, results: Results, now: string): seq<string> {
    ["\n<!DOCTYPE html>\n<html lang=\"en\">\n<head>\n<meta charset=\"UTF-8\">\n",
      "<meta name=\"viewport\" content=\"width=device-width, initial-scale=1.0\">\n",
      "<title>Accessibility Report for ", route, "</title>\n</head>\n<body>",
      ReportBody(route, results, now), "</body>\n</html>\n"]
  }

  /** `generateHtmlReport(route, results)`, the clock reading `now` given. */
  function GenerateHtmlReport(route: string, results: Results, now: string): string {
    Concat(PageParts(route, results, now))
  }

  /** Text in the body occurs in the page. */
  lemma BodyInPage(route: string, results: Results, now: string, t: string)
    requires Includes(ReportBody(route, results, now), t)
    ensures Includes(GenerateHtmlReport(route, results, now), t)
  {
    assert PageParts(route, results, now)[5] == ReportBody(route, results, now);
    ConcatIncludes(PageParts(route, results, now), 5, t);
  }

  /**
   * The page shows the number of violations, passes, incomplete and
   * inapplicable results, each after its caption and followed by the line
   * break or the end of the summary paragraph.
   */
  lemma SummaryShown(route: string, results: Results, now: string)
    ensures Includes(GenerateHtmlReport(route, results, now),
      "<strong>" + "Violations" + ":</strong> " + NatToString(|results.violations|) + "<br>\n")
    ensures Includes(GenerateHtmlReport(route, results, now),
      "<strong>" + "Passes" + ":</strong> " + NatToString(results.passes) + "<br>\n")
    ensures Includes(GenerateHtmlReport(route, results, now),
      "<strong>" + "Incomplete" + ":</strong> " + NatToString(results.incomplete) + "<br>\n")
    ensures Includes(GenerateHtmlReport(route, results, now),
      "<strong>" + "Inapplicable" + ":</strong> " + NatToString(results.inapplicable) + "\n</p>")
  {
    RowShown(route, results, now, 0, "Violations", |results.violations|, "<br>\n");
    RowShown(route, results, now, 1, "Passes", results.passes, "<br>\n");
    RowShown(route, results, now, 2, "Incomplete", results.incomplete, "<br>\n");
    RowShown(route, results, now, 3, "Inapplicable", results.inapplicable, "\n</p>");
  }

  lemma RowShown(route: string, results: Results, now: string, i: nat, caption: string, value: nat, next: string)
    requires i < 4
    requires caption == SummaryRows(results)[i].caption
    requires value == SummaryRows(results)[i].value
    requires next == if i + 1 < 4 then "<br>\n" else "\n</p>"
    ensures Includes(GenerateHtmlReport(route, results, now), "<strong>" + caption + ":</strong> " + NatToString(value) + next)
  {
    var t := "<strong>" + caption + ":</strong> " + NatToString(value) + next;
    SummaryIncludes(SummaryRows(results), i);
    SummaryInPage(route, results, now);
    IncludesTransitive(GenerateHtmlReport(route, results, now), SummaryHtml(SummaryRows(results)), t);
  }

  lemma SummaryInPage(route: string, results: Results, now: string)
    ensures Includes(GenerateHtmlReport(route, results, now), SummaryHtml(SummaryRows(results)))
  {
    var summary := SummaryHtml(SummaryRows(results));
    IncludesSelf(summary);
    assert BodyParts(route, results, now)[5] == summary;
    ConcatIncludes(BodyParts(route, results, now), 5, summary);
    BodyInPage(route, results, now, summary);
  }

  /** When there are violations, each violation's block occurs in the page. */
  lemma ViolationsShown(route: string, results: Results, now: string, i: nat)
    requires i < |results.violations|
    ensures Includes(GenerateHtmlReport(route, results, now), ViolationHtml(results.violations[i]))
  {
    var t := ViolationHtml(results.violations[i]);
    ViolationsPartLists(results.violations, NoViolationsMessage, i);
    assert BodyParts(route, results, now)[7] == ViolationsPart(results.violations, NoViolationsMessage);
    ConcatIncludes(BodyParts(route, results, now), 7, t);
    BodyInPage(route, results, now, t);
  }

  /** The no-violations message is the violations part exactly when there are no violations. */
  lemma NoViolationsIffEmpty(results: Results)
    ensures ViolationsPart(results.violations, NoViolationsMessage) == NoViolationsMessage
      <==> |results.violations| == 0
  {
    assert NoViolationsMessage[0] == '<';
    ViolationsPartIsMessage(results.violations, NoViolationsMessage);
  }
}
