/**
 * The axe-core results the accessibility-report generators read, and the HTML
 * blocks both generators build from them: one `<div class="violation">` per
 * violation, holding one `<div class="node">` per affected element, each
 * element's markup and failure summary escaped. Template indentation is not
 * reproduced; line breaks are.
 */
module AxeResults {
  import opened Wrappers
  import opened Seqs
  import opened Text
  import opened HtmlEscape

  /** One check of an affected element; `impact` may be null. */
  datatype Check = Check(impact: Option<string>)

  /** An affected element: its markup, axe's failure summary and its `any` checks. */
  datatype Node = Node(html: string, failureSummary: string, any: seq<Check>)

  datatype Violation = Violation(
    id: string,
    help: string,
    impact: Option<string>,
    description: string,
    helpUrl: string,
    nodes: seq<Node>)

  /**
   * A page's results. The reports read only the lengths of the `passes`,
   * `incomplete` and `inapplicable` arrays, so those are kept as counts.
   */
  datatype Results = Results(violations: seq<Violation>, passes: nat, incomplete: nat, inapplicable: nat)

  /** A possibly-null string interpolated into a template literal. */
  function Show(s: Option<string>): (r: string)
    ensures s.Some? ==> r == s.value
    ensures s.None? ==> r == "null"
  {
    match s
    case Some(v) => v
    case None => "null"
  }

  /** `parts.join('')`. */
  function Concat(parts: seq<string>): (r: string)
    ensures |parts| == 0 ==> r == ""
  {
    if |parts| == 0 then "" else parts[0] + Concat(parts[1..])
  }

  /** Concatenation distributes over splitting the list of parts. */
  lemma {:induction false} ConcatAppend(a: seq<string>, b: seq<string>)
    ensures Concat(a + b) == Concat(a) + Concat(b)
  {
    if |a| == 0 {
      assert a + b == b;
    } else {
      assert (a + b)[1..] == a[1..] + b;
      ConcatAppend(a[1..], b);
    }
  }

  /** `xs.map(f)`. */
  function MapRender<T>(xs: seq<T>, f: T -> string): (r: seq<string>)
    ensures |r| == |xs|
    ensures forall j :: 0 <= j < |xs| ==> r[j] == f(xs[j])
  {
    seq(|xs|, j requires 0 <= j < |xs| => f(xs[j]))
  }

  /**
   * `xs.map(f).join('')` is the rendering of the items before `xs[i]`, then
   * `f(xs[i])`, then the rendering of the items after it: every item once, in
   * input order.
   */
  lemma MapRenderSplit<T>(xs: seq<T>, f: T -> string, i: nat)
    requires i < |xs|
    ensures Concat(MapRender(xs, f)) == Concat(MapRender(xs[..i], f)) + f(xs[i]) + Concat(MapRender(xs[i + 1..], f))
  {
    var parts := MapRender(xs, f);
    assert MapRender(xs[..i], f) == parts[..i];
    assert MapRender(xs[i + 1..], f) == parts[i + 1..];
    assert parts == parts[..i] + [parts[i]] + parts[i + 1..];
    ConcatAppend(parts[..i] + [parts[i]], parts[i + 1..]);
    ConcatAppend(parts[..i], [parts[i]]);
    assert Concat([parts[i]]) == parts[i] + Concat([]);
  }

  /** The fixed text around an element's markup and failure summary. */
  const NodeOpen := "\n<div class=\"node\">\n<h4>Element:</h4>\n<pre>"
  const NodeMiddle := "</pre>\n<h4>Failure Summary:</h4>\n<pre>"
  const NodeClose := "</pre>\n</div>\n"

  /** One affected element. */
  function NodeHtml(node: Node): string {
    NodeOpen + EscapeHtml(node.html) + NodeMiddle + EscapeHtml(node.failureSummary) + NodeClose
  }

  function NodeBlocks(nodes: seq<Node>): seq<string> {
    MapRender(nodes, NodeHtml)
  }

  /** A violation's heading, impact, description and help link, up to its element list. */
  function ViolationHeader(v: Violation): string {
    Concat([ViolationOpen, v.id, ": ", v.help, "</h3>\n",
      "<p><strong>Impact:</strong> ", Show(v.impact), "</p>\n",
      "<p><strong>Description:</strong> ", v.description, "</p>\n",
      "<p><strong>Help URL:</strong> <a href=\"", v.helpUrl, "\" target=\"_blank\">", v.helpUrl, "</a></p>\n",
      "<h4>Affected Elements:</h4>\n"])
  }

  /** One violation with its affected elements. */
  function ViolationHtml(v: Violation): string {
    ViolationHeader(v) + Concat(NodeBlocks(v.nodes)) + "\n</div>\n"
  }

  const ViolationOpen := "\n<div class=\"violation\">\n<h3>"

  function ViolationBlocks(vs: seq<Violation>): seq<string> {
    MapRender(vs, ViolationHtml)
  }

  /** `violations.map(...).join('')`. */
  function ViolationsHtml(vs: seq<Violation>): string {
    Concat(ViolationBlocks(vs))
  }

  /** The violation list is the blocks of violations `0..i-1`, then violation `i`'s block, then the rest. */
  lemma ViolationSections(vs: seq<Violation>, i: nat)
    requires i < |vs|
    ensures ViolationsHtml(vs) == ViolationsHtml(vs[..i]) + ViolationHtml(vs[i]) + ViolationsHtml(vs[i + 1..])
  {
    MapRenderSplit(vs, ViolationHtml, i);
  }

  /** A violation's element list is the blocks of nodes `0..j-1`, then node `j`'s block, then the rest. */
  lemma NodeSections(nodes: seq<Node>, j: nat)
    requires j < |nodes|
    ensures Concat(NodeBlocks(nodes)) == Concat(NodeBlocks(nodes[..j])) + NodeHtml(nodes[j]) + Concat(NodeBlocks(nodes[j + 1..]))
  {
    MapRenderSplit(nodes, NodeHtml, j);
  }

  /** Text that occurs in one of the parts occurs in `parts.join('')`. */
  lemma ConcatIncludes(parts: seq<string>, i: nat, t: string)
    requires i < |parts| && Includes(parts[i], t)
    ensures Includes(Concat(parts), t)
  {
    var split := parts[..i] + [parts[i]] + parts[i + 1..];
    assert split == parts;
    ConcatAppend(parts[..i] + [parts[i]], parts[i + 1..]);
    ConcatAppend(parts[..i], [parts[i]]);
    assert Concat([parts[i]]) == parts[i] + Concat([]);
    assert Concat(parts) == Concat(parts[..i]) + parts[i] + Concat(parts[i + 1..]);
    IncludesWithin(Concat(parts[..i]), parts[i], Concat(parts[i + 1..]), t);
  }

  /** Text spanning two neighbouring parts occurs in `parts.join('')`. */
  lemma ConcatIncludesPair(parts: seq<string>, i: nat, t: string)
    requires i + 1 < |parts| && Includes(parts[i] + parts[i + 1], t)
    ensures Includes(Concat(parts), t)
  {
    var split := parts[..i] + [parts[i], parts[i + 1]] + parts[i + 2..];
    assert split == parts;
    ConcatAppend(parts[..i] + [parts[i], parts[i + 1]], parts[i + 2..]);
    ConcatAppend(parts[..i], [parts[i], parts[i + 1]]);
    assert Concat([parts[i], parts[i + 1]]) == parts[i] + (parts[i + 1] + Concat([]));
    assert Concat(parts) == Concat(parts[..i]) + (parts[i] + parts[i + 1]) + Concat(parts[i + 2..]);
    IncludesWithin(Concat(parts[..i]), parts[i] + parts[i + 1], Concat(parts[i + 2..]), t);
  }

  /** Every affected element's block occurs in its violation's block. */
  lemma ViolationListsNodes(v: Violation, j: nat)
    requires j < |v.nodes|
    ensures Includes(ViolationHtml(v), NodeHtml(v.nodes[j]))
  {
    NodeSections(v.nodes, j);
    var t := NodeHtml(v.nodes[j]);
    IncludesSelf(t);
    IncludesWithin(Concat(NodeBlocks(v.nodes[..j])), t, Concat(NodeBlocks(v.nodes[j + 1..])), t);
    IncludesWithin(ViolationHeader(v), Concat(NodeBlocks(v.nodes)), "\n</div>\n", t);
  }

  /**
   * An element's block shows its markup and its failure summary escaped,
   * each followed by the closing `</pre>` of its box.
   */
  lemma NodeShowsEscaped(node: Node)
    ensures Includes(NodeHtml(node), EscapeHtml(node.html) + NodeMiddle)
    ensures Includes(NodeHtml(node), EscapeHtml(node.failureSummary) + NodeClose)
  {
    FillingIncluded(NodeOpen, EscapeHtml(node.html), NodeMiddle, EscapeHtml(node.failureSummary), NodeClose);
  }

  lemma FillingIncluded(p: string, a: string, q: string, b: string, r: string)
    ensures Includes(p + a + q + b + r, a + q) && Includes(p + a + q + b + r, b + r)
  {
    var s := p + a + q + b + r;
    assert s[|p|..|p| + |a + q|] == a + q;
    assert OccursAt(s, a + q, |p|);
    assert s[|p + a + q|..|p + a + q| + |b + r|] == b + r;
    assert OccursAt(s, b + r, |p + a + q|);
  }

  /** A non-empty violation list starts with the opening line break of its first block. */
  lemma ViolationsHtmlStart(vs: seq<Violation>)
    requires |vs| > 0
    ensures |ViolationsHtml(vs)| > 0 && ViolationsHtml(vs)[0] == '\n'
  {
    ViolationSections(vs, 0);
    assert vs[..0] == [];
    assert ViolationHtml(vs[0])[0] == '\n';
  }

  /**
   * The element block's tags come from the template alone: whatever the
   * element's markup or summary holds, the block has exactly the `<` of the
   * fixed template text, so affected markup cannot open an element in the report.
   */
  lemma NodeHtmlTags(node: Node)
    ensures Count(NodeHtml(node), '<') == Count(NodeOpen + NodeMiddle + NodeClose, '<')
  {
    EscapeHtmlMarkupFree(node.html);
    EscapeHtmlMarkupFree(node.failureSummary);
    FillingWithoutTags(NodeOpen, EscapeHtml(node.html), NodeMiddle, EscapeHtml(node.failureSummary), NodeClose);
  }

  lemma FillingWithoutTags(p: string, a: string, q: string, b: string, r: string)
    requires '<' !in a && '<' !in b
    ensures Count(p + a + q + b + r, '<') == Count(p + q + r, '<')
  {
    assert multiset(a)['<'] == 0 && multiset(b)['<'] == 0;
    assert multiset(p + a + q + b + r) == multiset(p) + multiset(a) + multiset(q) + multiset(b) + multiset(r);
    assert multiset(p + q + r) == multiset(p) + multiset(q) + multiset(r);
  }

  /** One `<strong>caption:</strong> value` line of a report's summary box. */
  datatype SummaryRow = SummaryRow(caption: string, value: nat)

  function RowHtml(row: SummaryRow): string {
    "<strong>" + row.caption + ":</strong> " + NatToString(row.value)
  }

  /** The summary box: the rows separated by `<br>` line breaks. */
  function SummaryHtml(rows: seq<SummaryRow>): string {
    "<div class=\"summary\">\n<h2>Summary</h2>\n<p>\n" + Join(MapRender(rows, RowHtml), "<br>\n") + "\n</p>\n</div>\n"
  }

  /**
   * Each row of a summary box shows its caption and value, followed by the
   * `<br>` line break, or by the paragraph's end after the last row.
   */
  lemma SummaryIncludes(rows: seq<SummaryRow>, i: nat)
    requires i < |rows|
    ensures Includes(SummaryHtml(rows), "<strong>" + rows[i].caption + ":</strong> " + NatToString(rows[i].value)
      + (if i + 1 < |rows| then "<br>\n" else "\n</p>"))
  {
    var parts := MapRender(rows, RowHtml);
    JoinIncludes(parts, "<br>\n", "\n</p>", i);
    var t := parts[i] + (if i + 1 < |rows| then "<br>\n" else "\n</p>");
    var head := "<div class=\"summary\">\n<h2>Summary</h2>\n<p>\n";
    IncludesWithin(head, Join(parts, "<br>\n") + "\n</p>", "\n</div>\n", t);
    assert SummaryHtml(rows) == head + (Join(parts, "<br>\n") + "\n</p>") + "\n</div>\n";
  }

  /** The violations part of a report: the message when there are none, otherwise the list. */
  function ViolationsPart(vs: seq<Violation>, message: string): string {
    if |vs| == 0 then message else ViolationsHtml(vs)
  }

  /** When there are violations, each one's block occurs in the violations part. */
  lemma ViolationsPartLists(vs: seq<Violation>, message: string, i: nat)
    requires i < |vs|
    ensures Includes(ViolationsPart(vs, message), ViolationHtml(vs[i]))
  {
    ViolationSections(vs, i);
    IncludesSelf(ViolationHtml(vs[i]));
    IncludesWithin(ViolationsHtml(vs[..i]), ViolationHtml(vs[i]), ViolationsHtml(vs[i + 1..]), ViolationHtml(vs[i]));
  }

  /** A message that does not begin with a line break is shown exactly when there are no violations. */
  lemma ViolationsPartIsMessage(vs: seq<Violation>, message: string)
    requires |message| > 0 && message[0] != '\n'
    ensures ViolationsPart(vs, message) == message <==> |vs| == 0
  {
    if |vs| > 0 {
      ViolationsHtmlStart(vs);
    }
  }
}
