/**
 * The tree-map component: the order and colours the parents are drawn in,
 * the count labels, and the panning, zooming and selection state.
 */
module TreeMapView {
  import opened Wrappers
  import opened Seqs
  import opened Text
  import opened Records
  import opened TreeMapBuilder

  /**
   * The parents' comparator as an order: "Other" after everything else, the
   * rest by `nameLeq` (which stands for `localeCompare`). Two nodes both named
   * "Other" tie here.
   */
  function ParentOrder(nameLeq: (string, string) -> bool): (TreeNode, TreeNode) -> bool {
    (a: TreeNode, b: TreeNode) =>
      if a.name == "Other" then b.name == "Other"
      else if b.name == "Other" then true
      else nameLeq(a.name, b.name)
  }

  lemma ParentOrderIsTotalPreorder(nameLeq: (string, string) -> bool)
    requires TotalPreorder(nameLeq)
    ensures TotalPreorder(ParentOrder(nameLeq))
  {
    var leq := ParentOrder(nameLeq);
    forall a: TreeNode, b: TreeNode, c: TreeNode | leq(a, b) && leq(b, c)
      ensures leq(a, c)
    {
      if a.name != "Other" && b.name != "Other" && c.name != "Other" {
        assert nameLeq(a.name, b.name) && nameLeq(b.name, c.name);
      }
    }
    forall a: TreeNode, b: TreeNode
      ensures leq(a, b) || leq(b, a)
    {
      if a.name != "Other" && b.name != "Other" {
        assert nameLeq(a.name, b.name) || nameLeq(b.name, a.name);
      }
    }
  }

  /** `[...data].sort(...)`: the same parents, "Other" last, the others in name order. */
  function SortParents(data: seq<TreeNode>, nameLeq: (string, string) -> bool): (r: seq<TreeNode>)
    requires TotalPreorder(nameLeq)
    ensures multiset(r) == multiset(data)
    ensures forall i, j :: 0 <= i < j < |r| && r[i].name != "Other" && r[j].name != "Other" ==>
              nameLeq(r[i].name, r[j].name)
    ensures forall i, j :: 0 <= i < |r| && 0 <= j < |r| && r[i].name == "Other" && r[j].name != "Other" ==> j < i
  {
    ParentOrderIsTotalPreorder(nameLeq);
    Sort(data, ParentOrder(nameLeq))
  }

  /** The `i`-th drawn parent's colour. */
  function ParentColor(i: nat): string {
    Cycle(VarChartColors, i)
  }

  /** A box's fill and bottom border. */
  datatype Style = Style(background: string, border: string)

  function StyleFor(color: string): Style {
    Style("hsl(" + color + " / 0.1)", "4px solid hsl(" + color + ")")
  }

  /**
   * The `{value && <div>{value} publication{value !== 1 ? "s" : ""}</div>}`
   * label. A zero value renders the bare "0" that `0 && ...` evaluates to.
   */
  function CountLabel(value: nat): (r: string)
    ensures value == 0 <==> r == "0"
    ensures value >= 1 ==> IsPrefix(NatToString(value), r)
    ensures value >= 1 ==> (r[|r| - 1] == 's' <==> value != 1)
  {
    if value == 0 then "0"
    else NatToString(value) + " publication" + (if value != 1 then "s" else "")
  }

  /** A drawn box: the node it selects when clicked, its label and its style. */
  datatype Box = Box(node: TreeNode, countLabel: string, style: Style, children: seq<Box>)

  /** Publication boxes show only the name. */
  function LeafBoxes(leaves: seq<TreeNode>, style: Style): (r: seq<Box>)
    ensures |r| == |leaves|
    ensures forall m :: 0 <= m < |r| ==> r[m].node == leaves[m] && r[m].style == style && r[m].children == []
  {
    seq(|leaves|, m requires 0 <= m < |leaves| => Box(leaves[m], "", style, []))
  }

  function DivisionBoxes(divisions: seq<TreeNode>, style: Style): (r: seq<Box>)
    ensures |r| == |divisions|
    ensures forall d :: 0 <= d < |r| ==>
              (r[d].node == divisions[d] && r[d].style == style && r[d].children == LeafBoxes(divisions[d].children, style))
  {
    seq(|divisions|, d requires 0 <= d < |divisions| =>
      Box(divisions[d], CountLabel(divisions[d].value), style, LeafBoxes(divisions[d].children, style)))
  }

  /** The drawn tree: parents in comparator order, every box in the parent's colour. */
  function Layout(data: seq<TreeNode>, nameLeq: (string, string) -> bool): (r: seq<Box>)
    requires TotalPreorder(nameLeq)
    ensures |r| == |data|
    ensures forall i :: 0 <= i < |r| ==> r[i].node == SortParents(data, nameLeq)[i]
  {
    var sorted := SortParents(data, nameLeq);
    seq(|sorted|, i requires 0 <= i < |sorted| =>
      var style := StyleFor(ParentColor(i));
      Box(sorted[i], CountLabel(sorted[i].value), style, DivisionBoxes(sorted[i].children, style)))
  }

  /**
   * Every box under the `i`-th parent has that parent's style, whatever colour
   * the builder gave the node.
   */
  lemma LayoutColors(data: seq<TreeNode>, nameLeq: (string, string) -> bool, i: nat, d: nat, m: nat)
    requires TotalPreorder(nameLeq)
    requires i < |Layout(data, nameLeq)|
    ensures var p := Layout(data, nameLeq)[i];
      && p.style == StyleFor(Cycle(VarChartColors, i))
      && (d < |p.children| ==> p.children[d].style == p.style)
      && (d < |p.children| && m < |p.children[d].children| ==> p.children[d].children[m].style == p.style)
  {
  }

  /** The page's nodes always carry a count label of the form "n publication(s)". */
  lemma BuiltNodesHaveCountLabels(pubs: seq<Publication>, i: nat, d: nat)
    requires i < |TreeMapData(pubs)|
    ensures var n := TreeMapData(pubs)[i];
      CountLabel(n.value) != "0" && IsPrefix(NatToString(n.value), CountLabel(n.value))
    ensures var n := TreeMapData(pubs)[i];
      d < |n.children| ==> CountLabel(n.children[d].value) != "0"
  {
    AlignmentValue(pubs, i);
    if d < |TreeMapData(pubs)[i].children| {
      DivisionValue(pubs, i, d);
    }
  }

  /** `Math.min(Math.max(0.5, delta > 0 ? scale * 0.9 : scale * 1.1), 5)`. */
  function Zoom(scale: real, deltaY: real): (r: real)
    ensures 0.5 <= r <= 5.0
    ensures 0.5 <= scale <= 5.0 && deltaY > 0.0 ==> r <= scale
    ensures 0.5 <= scale <= 5.0 && deltaY <= 0.0 ==> r >= scale
    ensures 0.5 <= scale * 0.9 <= 5.0 && deltaY > 0.0 ==> r == scale * 0.9
    ensures 0.5 <= scale * 1.1 <= 5.0 && deltaY <= 0.0 ==> r == scale * 1.1
  {
    var s := if deltaY > 0.0 then scale * 0.9 else scale * 1.1;
    var lo := if 0.5 < s then s else 0.5;
    if lo < 5.0 then lo else 5.0
  }

  /** The pointer's offset from the content, recorded at mouse-down. */
  function DragOffset(position: (int, int), clientX: int, clientY: int): (int, int) {
    (clientX - position.0, clientY - position.1)
  }

  /** Where a move puts the content: the pointer minus the recorded offset. */
  function DragPosition(dragStart: (int, int), clientX: int, clientY: int): (int, int) {
    (clientX - dragStart.0, clientY - dragStart.1)
  }

  /**
   * A drag moves the content by exactly the pointer's displacement since
   * mouse-down; in particular a move back to the mouse-down point leaves the
   * content where it was.
   */
  lemma DragFollowsPointer(position: (int, int), downX: int, downY: int, moveX: int, moveY: int)
    ensures DragPosition(DragOffset(position, downX, downY), moveX, moveY)
      == (position.0 + (moveX - downX), position.1 + (moveY - downY))
    ensures DragPosition(DragOffset(position, downX, downY), downX, downY) == position
  {
  }

  /** The component's state. */
  class TreeMapState {
    var selectedNode: Option<TreeNode>
    var isDragging: bool
    var dragStart: (int, int)
    var position: (int, int)
    var scale: real

    /** The zoom stays within its clamp. */
    ghost predicate Valid()
      reads this
    {
      0.5 <= scale <= 5.0
    }

    constructor()
      ensures Valid()
      ensures selectedNode == None && !isDragging && dragStart == (0, 0) && position == (0, 0) && scale == 1.0
    {
      selectedNode, isDragging, dragStart, position, scale := None, false, (0, 0), (0, 0), 1.0;
    }

    /** Start a drag, remembering the pointer's offset from the content. */
    method MouseDown(clientX: int, clientY: int)
      modifies this
      ensures isDragging
      ensures dragStart == DragOffset(old(position), clientX, clientY)
      ensures position == old(position) && scale == old(scale) && selectedNode == old(selectedNode)
    {
      isDragging := true;
      dragStart := DragOffset(position, clientX, clientY);
    }

    /** While dragging, the content keeps the pointer at the offset it had at mouse-down. */
    method MouseMove(clientX: int, clientY: int)
      modifies this
      ensures old(isDragging) ==> position == DragPosition(dragStart, clientX, clientY)
      ensures !old(isDragging) ==> position == old(position)
      ensures isDragging == old(isDragging) && dragStart == old(dragStart)
      ensures scale == old(scale) && selectedNode == old(selectedNode)
    {
      if isDragging {
        position := DragPosition(dragStart, clientX, clientY);
      }
    }

    method MouseUp()
      modifies this
      ensures !isDragging
      ensures position == old(position) && dragStart == old(dragStart)
      ensures scale == old(scale) && selectedNode == old(selectedNode)
    {
      isDragging := false;
    }

    method MouseLeave()
      modifies this
      ensures !isDragging
      ensures position == old(position) && dragStart == old(dragStart)
      ensures scale == old(scale) && selectedNode == old(selectedNode)
    {
      isDragging := false;
    }

    method Wheel(deltaY: real)
      requires Valid()
      modifies this
      ensures Valid()
      ensures scale == Zoom(old(scale), deltaY)
      ensures deltaY > 0.0 ==> scale <= old(scale)
      ensures deltaY <= 0.0 ==> scale >= old(scale)
      ensures position == old(position) && isDragging == old(isDragging)
      ensures dragStart == old(dragStart) && selectedNode == old(selectedNode)
    {
      scale := Zoom(scale, deltaY);
    }

    method NodeClick(node: TreeNode)
      modifies this
      ensures selectedNode == Some(node)
      ensures position == old(position) && isDragging == old(isDragging)
      ensures dragStart == old(dragStart) && scale == old(scale)
    {
      selectedNode := Some(node);
    }

    /** The details panel's Close button. */
    method Close()
      modifies this
      ensures selectedNode == None
      ensures position == old(position) && isDragging == old(isDragging)
      ensures dragStart == old(dragStart) && scale == old(scale)
    {
      selectedNode := None;
    }
  }
}
