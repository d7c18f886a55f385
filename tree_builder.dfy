/**
 * The tree-map page's `processDataForTreeMap`: publications grouped by PO2
 * alignment, each alignment's publications grouped by division, one leaf per
 * publication. Both groupings fill a dictionary with `push` loops (`GroupBy`);
 * the nodes are built from the dictionaries in key order.
 */
module TreeMapBuilder {
  import opened Seqs
  import opened Text
  import opened Records
  import opened Grouping

  /**
   * A tree-map node. `children` is empty for a leaf (the source leaves the
   * property out); `details` lists the detail panel's entries in insertion order.
   */
  datatype TreeNode = TreeNode(name: string, value: nat, color: string,
                               children: seq<TreeNode>, details: seq<(string, string)>)

  /** `pub["PO2 alignment (FY25/26)"] || "Unknown"`. */
  function AlignmentKey(p: Publication): string {
    OrDefault(p.alignment, "Unknown")
  }

  /** `pub.Division || "Unknown Division"`. */
  function DivisionKey(p: Publication): string {
    OrDefault(p.division, "Unknown Division")
  }

  /** A publication's leaf: value 1 and the raw (undefaulted) columns as details. */
  function Leaf(p: Publication, color: string): TreeNode {
    TreeNode(p.title, 1, color, [], [
      ("Publication", p.title), ("Division", p.division), ("Directorate", p.directorate),
      ("Frequency", p.frequency), ("Output Type", p.outputType), ("DD", p.dd),
      ("BA Lead", p.baLead), ("PO2 Alignment", p.alignment)])
  }

  /** The node of division `division` (the `divIndex`-th) inside alignment `po2` (the `po2Index`-th). */
  function DivisionNode(po2: string, division: string, members: seq<Publication>, po2Index: nat, divIndex: nat): TreeNode {
    var leafColor := Cycle(HslChartColors, po2Index + divIndex + 2);
    TreeNode(division, |members|, Cycle(HslChartColors, po2Index + divIndex + 1),
             seq(|members|, j requires 0 <= j < |members| => Leaf(members[j], leafColor)),
             [("Division", division), ("Publications", NatToString(|members|)), ("PO2 Alignment", po2)])
  }

  /** The division nodes of one alignment's publications, one per key of `divisions`, in that order. */
  function DivisionNodes(po2: string, pubs: seq<Publication>, po2Index: nat, divisions: seq<string>): (r: seq<TreeNode>)
    ensures |r| == |divisions|
  {
    seq(|divisions|, d requires 0 <= d < |divisions| =>
      DivisionNode(po2, divisions[d], Members(pubs, DivisionKey, divisions[d]), po2Index, d))
  }

  /** An alignment node, given its division nodes. */
  function AlignmentNode(po2: string, size: nat, po2Index: nat, divisionNodes: seq<TreeNode>): TreeNode {
    TreeNode(po2, size, Cycle(HslChartColors, po2Index), divisionNodes,
             [("PO2 Alignment", po2), ("Total Publications", NatToString(size)),
              ("Divisions", NatToString(|divisionNodes|))])
  }

  /** The alignment node of `po2`, whose publications are `pubs`. */
  function AlignmentNodeOf(po2: string, pubs: seq<Publication>, po2Index: nat): TreeNode {
    AlignmentNode(po2, |pubs|, po2Index, DivisionNodes(po2, pubs, po2Index, Dedup(Keys(pubs, DivisionKey))))
  }

  /** The `i`-th alignment in first-seen order, with its node. */
  function AlignmentAt(pubs: seq<Publication>, i: nat): TreeNode
    requires i < |Dedup(Keys(pubs, AlignmentKey))|
  {
    var po2 := Dedup(Keys(pubs, AlignmentKey))[i];
    AlignmentNodeOf(po2, Members(pubs, AlignmentKey, po2), i)
  }

  /** What `processDataForTreeMap` returns: one node per alignment, in first-seen order. */
  function TreeMapData(pubs: seq<Publication>): (r: seq<TreeNode>)
    ensures |r| == |Dedup(Keys(pubs, AlignmentKey))|
    ensures forall i :: 0 <= i < |r| ==> r[i] == AlignmentAt(pubs, i)
  {
    var n := |Dedup(Keys(pubs, AlignmentKey))|;
    seq(n, i requires 0 <= i < n => AlignmentAt(pubs, i))
  }

  /** The division nodes built from the division dictionary, in its key order. */
  function DivisionNodesFrom(po2: string, divOrder: seq<string>, divGroups: map<string, seq<Publication>>, po2Index: nat): seq<TreeNode>
    requires forall k :: k in divOrder ==> k in divGroups
  {
    seq(|divOrder|, d requires 0 <= d < |divOrder| => DivisionNode(po2, divOrder[d], divGroups[divOrder[d]], po2Index, d))
  }

  /** The alignment node built from the dictionaries is the one `TreeMapData` lists at that index. */
  lemma AlignmentStep(pubs: seq<Publication>, i: nat, pubsInPo2: seq<Publication>,
                      divOrder: seq<string>, divGroups: map<string, seq<Publication>>)
    requires i < |Dedup(Keys(pubs, AlignmentKey))|
    requires pubsInPo2 == Members(pubs, AlignmentKey, Dedup(Keys(pubs, AlignmentKey))[i])
    requires divOrder == Dedup(Keys(pubsInPo2, DivisionKey))
    requires forall k :: k in divGroups <==> k in divOrder
    requires forall k :: k in divGroups ==> divGroups[k] == Members(pubsInPo2, DivisionKey, k)
    ensures AlignmentNode(Dedup(Keys(pubs, AlignmentKey))[i], |pubsInPo2|, i,
                          DivisionNodesFrom(Dedup(Keys(pubs, AlignmentKey))[i], divOrder, divGroups, i))
            == AlignmentAt(pubs, i)
  {
    var po2 := Dedup(Keys(pubs, AlignmentKey))[i];
    assert DivisionNodesFrom(po2, divOrder, divGroups, i) == DivisionNodes(po2, pubsInPo2, i, divOrder);
  }

  /** The body of the outer `map`: group one alignment's publications by division and build its node. */
  method BuildAlignmentNode(pubs: seq<Publication>, i: nat, po2: string, pubsInPo2: seq<Publication>) returns (node: TreeNode)
    requires i < |Dedup(Keys(pubs, AlignmentKey))| && po2 == Dedup(Keys(pubs, AlignmentKey))[i]
    requires pubsInPo2 == Members(pubs, AlignmentKey, po2)
    ensures node == AlignmentAt(pubs, i)
  {
    var divOrder, divisionGroups := GroupBy(pubsInPo2, DivisionKey);
    AlignmentStep(pubs, i, pubsInPo2, divOrder, divisionGroups);
    node := AlignmentNode(po2, |pubsInPo2|, i, DivisionNodesFrom(po2, divOrder, divisionGroups, i));
  }

  lemma AppendAlignment(pubs: seq<Publication>, nodes: seq<TreeNode>, node: TreeNode)
    requires |nodes| < |Dedup(Keys(pubs, AlignmentKey))|
    requires forall j :: 0 <= j < |nodes| ==> nodes[j] == AlignmentAt(pubs, j)
    requires node == AlignmentAt(pubs, |nodes|)
    ensures forall j :: 0 <= j < |nodes| + 1 ==> (nodes + [node])[j] == AlignmentAt(pubs, j)
  {
  }

  /** `processDataForTreeMap(publicationData)`. */
  method ProcessDataForTreeMap(pubs: seq<Publication>) returns (nodes: seq<TreeNode>)
    ensures nodes == TreeMapData(pubs)
  {
    var order, po2Groups := GroupBy(pubs, AlignmentKey);
    nodes := [];
    var i := 0;
    while i < |order|
      invariant 0 <= i <= |order|
      invariant |nodes| == i
      invariant forall j :: 0 <= j < i ==> nodes[j] == AlignmentAt(pubs, j)
    {
      var node := BuildAlignmentNode(pubs, i, order[i], po2Groups[order[i]]);
      AppendAlignment(pubs, nodes, node);
      nodes := nodes + [node];
      i := i + 1;
    }
  }

  /** Sum of the nodes' values. */
  function ValueSum(ns: seq<TreeNode>): nat {
    if |ns| == 0 then 0 else ValueSum(ns[..|ns| - 1]) + ns[|ns| - 1].value
  }

  /** Nodes sized by their groups add up to the group sizes. */
  lemma {:induction false} ValueSumOfGroups<T>(ns: seq<TreeNode>, xs: seq<T>, key: T -> string, order: seq<string>)
    requires |ns| == |order|
    requires forall i :: 0 <= i < |ns| ==> ns[i].value == |Members(xs, key, order[i])|
    ensures ValueSum(ns) == SumOfSizes(xs, key, order)
  {
    if |ns| > 0 {
      var n := |ns| - 1;
      ValueSumOfGroups(ns[..n], xs, key, order[..n]);
    }
  }

  /** The `i`-th top-level node is named after the `i`-th alignment seen. */
  lemma AlignmentName(pubs: seq<Publication>, i: nat)
    requires i < |TreeMapData(pubs)|
    ensures TreeMapData(pubs)[i].name == Dedup(Keys(pubs, AlignmentKey))[i]
  {
  }

  /** The alignments are the distinct defaulted alignment values: each shown once, none missing. */
  lemma TopLevelNames(pubs: seq<Publication>)
    ensures var r := TreeMapData(pubs);
      forall i, j :: 0 <= i < j < |r| ==> r[i].name != r[j].name
    ensures var r := TreeMapData(pubs);
      forall p :: p in pubs ==> exists i :: 0 <= i < |r| && r[i].name == AlignmentKey(p)
  {
    var r := TreeMapData(pubs);
    var order := Dedup(Keys(pubs, AlignmentKey));
    forall i, j | 0 <= i < j < |r|
      ensures r[i].name != r[j].name
    {
      AlignmentName(pubs, i);
      AlignmentName(pubs, j);
    }
    forall p | p in pubs
      ensures exists i :: 0 <= i < |r| && r[i].name == AlignmentKey(p)
    {
      var j :| 0 <= j < |pubs| && pubs[j] == p;
      assert Keys(pubs, AlignmentKey)[j] == AlignmentKey(p);
      assert AlignmentKey(p) in order;
      var i :| 0 <= i < |order| && order[i] == AlignmentKey(p);
      AlignmentName(pubs, i);
    }
  }

  /** The alignment node's count is its publications', which is the sum of its divisions' counts. */
  lemma AlignmentValue(pubs: seq<Publication>, i: nat)
    requires i < |TreeMapData(pubs)|
    ensures var n := TreeMapData(pubs)[i];
      n.value >= 1 && n.value == ValueSum(n.children) && n.color == Cycle(HslChartColors, i)
  {
    var order := Dedup(Keys(pubs, AlignmentKey));
    var inPo2 := Members(pubs, AlignmentKey, order[i]);
    var n := TreeMapData(pubs)[i];
    var divs := Dedup(Keys(inPo2, DivisionKey));
    MembersCount(pubs, AlignmentKey, order[i]);
    assert order[i] in Keys(pubs, AlignmentKey);
    ValueSumOfGroups(n.children, inPo2, DivisionKey, divs);
    GroupSizesSum(inPo2, DivisionKey, divs);
  }

  /** All the publications are counted once at the top level. */
  lemma TotalIsPublicationCount(pubs: seq<Publication>)
    ensures ValueSum(TreeMapData(pubs)) == |pubs|
  {
    var order := Dedup(Keys(pubs, AlignmentKey));
    ValueSumOfGroups(TreeMapData(pubs), pubs, AlignmentKey, order);
    GroupSizesSum(pubs, AlignmentKey, order);
  }

  /**
   * A division node counts its leaves, each of which counts 1; the leaves
   * share the colour one step past the division's.
   */
  lemma DivisionValue(pubs: seq<Publication>, i: nat, d: nat)
    requires i < |TreeMapData(pubs)| && d < |TreeMapData(pubs)[i].children|
    ensures var n := TreeMapData(pubs)[i].children[d];
      && n.value == |n.children| >= 1
      && n.color == Cycle(HslChartColors, i + d + 1)
      && forall j :: 0 <= j < |n.children| ==>
           n.children[j].value == 1 && n.children[j].children == [] &&
           n.children[j].color == Cycle(HslChartColors, i + d + 2)
  {
    var order := Dedup(Keys(pubs, AlignmentKey));
    var inPo2 := Members(pubs, AlignmentKey, order[i]);
    var divs := Dedup(Keys(inPo2, DivisionKey));
    MembersCount(inPo2, DivisionKey, divs[d]);
    assert divs[d] in Keys(inPo2, DivisionKey);
  }

  /**
   * The detail panels agree with the tree: an alignment's "Total Publications"
   * is its value and its "Divisions" the number of its division children (one
   * per distinct division of its publications); a division's "Publications"
   * is its number of leaves.
   */
  /**
   * A leaf's details are its publication's raw columns: the first names the
   * leaf, and the Division and PO2 Alignment details, once a blank is
   * defaulted, name the leaf's division and alignment nodes. A blank column
   * shows blank in the leaf, while its node says "Unknown Division" or "Unknown".
   */
  lemma LeafDetails(pubs: seq<Publication>, i: nat, d: nat, m: nat)
    requires i < |TreeMapData(pubs)| && d < |TreeMapData(pubs)[i].children|
    requires m < |TreeMapData(pubs)[i].children[d].children|
    ensures var r := TreeMapData(pubs);
      var leaf := r[i].children[d].children[m];
      && |leaf.details| == 8
      && leaf.details[0] == ("Publication", leaf.name)
      && leaf.details[1].0 == "Division"
      && OrDefault(leaf.details[1].1, "Unknown Division") == r[i].children[d].name
      && leaf.details[7].0 == "PO2 Alignment"
      && OrDefault(leaf.details[7].1, "Unknown") == r[i].name
  {
    LeafOrigin(pubs, i, d, m);
  }

  lemma NodeDetails(pubs: seq<Publication>, i: nat, d: nat)
    requires i < |TreeMapData(pubs)|
    ensures var n := TreeMapData(pubs)[i];
      && n.details == [("PO2 Alignment", n.name), ("Total Publications", NatToString(n.value)),
                       ("Divisions", NatToString(|n.children|))]
      && |n.children| == |Dedup(Keys(Members(pubs, AlignmentKey, n.name), DivisionKey))|
    ensures var n := TreeMapData(pubs)[i];
      d < |n.children| ==>
        n.children[d].details == [("Division", n.children[d].name),
                                  ("Publications", NatToString(|n.children[d].children|)),
                                  ("PO2 Alignment", n.name)]
  {
    AlignmentName(pubs, i);
  }

  /** The position of a publication's division among the divisions of its alignment. */
  lemma DivisionIndex(inPo2: seq<Publication>, p: Publication) returns (d: nat)
    requires p in inPo2
    ensures d < |Dedup(Keys(inPo2, DivisionKey))| && Dedup(Keys(inPo2, DivisionKey))[d] == DivisionKey(p)
  {
    var divs := Dedup(Keys(inPo2, DivisionKey));
    var q :| 0 <= q < |inPo2| && inPo2[q] == p;
    assert Keys(inPo2, DivisionKey)[q] == DivisionKey(p);
    assert DivisionKey(p) in divs;
    d :| 0 <= d < |divs| && divs[d] == DivisionKey(p);
  }

  /** Where a publication of an alignment sits among that alignment's division nodes. */
  lemma DivisionOf(po2: string, inPo2: seq<Publication>, i: nat, p: Publication) returns (d: nat, m: nat)
    requires p in inPo2
    ensures var ns := DivisionNodes(po2, inPo2, i, Dedup(Keys(inPo2, DivisionKey)));
      d < |ns| && m < |ns[d].children| && ns[d].name == DivisionKey(p) &&
      ns[d].children[m] == Leaf(p, Cycle(HslChartColors, i + d + 2))
  {
    var divs := Dedup(Keys(inPo2, DivisionKey));
    d := DivisionIndex(inPo2, p);
    m := MemberIndex(inPo2, DivisionKey, p);
    var members := Members(inPo2, DivisionKey, divs[d]);
    var node := DivisionNode(po2, divs[d], members, i, d);
    assert DivisionNodes(po2, inPo2, i, divs)[d] == node;
  }

  /**
   * Every publication has a leaf under its own alignment and its own division,
   * and every leaf is a publication of that alignment and division.
   */
  lemma PublicationPlacement(pubs: seq<Publication>, p: Publication)
    requires p in pubs
    ensures var r := TreeMapData(pubs);
      exists i, d :: 0 <= i < |r| && 0 <= d < |r[i].children| &&
        r[i].name == AlignmentKey(p) && r[i].children[d].name == DivisionKey(p) &&
        Leaf(p, Cycle(HslChartColors, i + d + 2)) in r[i].children[d].children
  {
    var r := TreeMapData(pubs);
    var order := Dedup(Keys(pubs, AlignmentKey));
    var j :| 0 <= j < |pubs| && pubs[j] == p;
    assert Keys(pubs, AlignmentKey)[j] == AlignmentKey(p);
    assert AlignmentKey(p) in order;
    var i :| 0 <= i < |order| && order[i] == AlignmentKey(p);
    AlignmentName(pubs, i);
    var inPo2 := Members(pubs, AlignmentKey, order[i]);
    MembersComplete(pubs, AlignmentKey, p);
    var d, m := DivisionOf(order[i], inPo2, i, p);
    assert r[i].children == DivisionNodes(order[i], inPo2, i, Dedup(Keys(inPo2, DivisionKey)));
    assert r[i].children[d].children[m] == Leaf(p, Cycle(HslChartColors, i + d + 2));
  }

  /** Every leaf is a publication of its alignment and its division. */
  lemma LeafOrigin(pubs: seq<Publication>, i: nat, d: nat, m: nat)
    requires i < |TreeMapData(pubs)| && d < |TreeMapData(pubs)[i].children|
    requires m < |TreeMapData(pubs)[i].children[d].children|
    ensures var r := TreeMapData(pubs);
      exists p :: p in pubs && AlignmentKey(p) == r[i].name && DivisionKey(p) == r[i].children[d].name &&
        r[i].children[d].children[m] == Leaf(p, Cycle(HslChartColors, i + d + 2))
  {
    var r := TreeMapData(pubs);
    var order := Dedup(Keys(pubs, AlignmentKey));
    var inPo2 := Members(pubs, AlignmentKey, order[i]);
    var divs := Dedup(Keys(inPo2, DivisionKey));
    var members := Members(inPo2, DivisionKey, divs[d]);
    var p := members[m];
    assert p in members;
    assert r[i].children[d].children[m] == Leaf(p, Cycle(HslChartColors, i + d + 2));
  }
}
