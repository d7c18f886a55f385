/**
 * The heatmap table: cell lookup, the colour-scale maximum, and the grid of
 * cells with their labels.
 */
module Heatmap {
  import opened Wrappers

  /** One data item `{ xKey, yKey, value }`. */
  datatype Item = Item(xKey: string, yKey: string, value: int)

  predicate Matches(item: Item, x: string, y: string) {
    item.xKey == x && item.yKey == y
  }

  /** `data.find(item => item.xKey === x && item.yKey === y)?.value ?? 0`. */
  function GetCellValue(data: seq<Item>, x: string, y: string): (r: int)
    ensures (forall k :: 0 <= k < |data| ==> !Matches(data[k], x, y)) ==> r == 0
    ensures forall k ::
              (0 <= k < |data| && Matches(data[k], x, y) && forall j :: 0 <= j < k ==> !Matches(data[j], x, y))
              ==> r == data[k].value
  {
    if |data| == 0 then 0
    else if Matches(data[0], x, y) then data[0].value
    else
      var r := GetCellValue(data[1..], x, y);
      assert forall k :: 1 <= k < |data| ==> data[k] == data[1..][k - 1];
      r
  }

  /**
   * `Math.max(...data.map(item => item.value))`; `None` stands for the
   * `-Infinity` of an empty spread.
   */
  function MaxValue(data: seq<Item>): (r: Option<int>)
    ensures |data| == 0 <==> r.None?
    ensures r.Some? ==> forall k :: 0 <= k < |data| ==> data[k].value <= r.value
    ensures r.Some? ==> exists k :: 0 <= k < |data| && data[k].value == r.value
  {
    if |data| == 0 then None
    else
      var rest := MaxValue(data[1..]);
      assert forall k :: 1 <= k < |data| ==> data[k] == data[1..][k - 1];
      if rest.None? || rest.value <= data[0].value then Some(data[0].value)
      else
        var k :| 0 <= k < |data[1..]| && data[1..][k].value == rest.value;
        assert data[k + 1].value == rest.value;
        rest
  }

  /** A cell's text: the number when positive, empty otherwise. */
  datatype CellText = Empty | Number(n: int)

  /** One body cell of the table. */
  datatype GridCell = GridCell(x: string, y: string, value: int, text: CellText)

  function CellLabel(value: int): (t: CellText)
    ensures t.Number? <==> value > 0
    ensures t.Number? ==> t.n == value
  {
    if value > 0 then Number(value) else Empty
  }

  /** The table body: a row per y label, and in it a cell per x label, in label order. */
  function Grid(data: seq<Item>, xLabels: seq<string>, yLabels: seq<string>): (rows: seq<seq<GridCell>>)
    ensures |rows| == |yLabels|
    ensures forall i :: 0 <= i < |rows| ==> |rows[i]| == |xLabels|
    ensures forall i, j :: 0 <= i < |rows| && 0 <= j < |xLabels| ==>
              rows[i][j].y == yLabels[i] && rows[i][j].x == xLabels[j]
    ensures forall i, j :: 0 <= i < |rows| && 0 <= j < |xLabels| ==>
              rows[i][j].value == GetCellValue(data, xLabels[j], yLabels[i])
    ensures forall i, j :: 0 <= i < |rows| && 0 <= j < |xLabels| ==>
              (rows[i][j].text.Number? <==> rows[i][j].value > 0)
  {
    seq(|yLabels|, i requires 0 <= i < |yLabels| =>
      seq(|xLabels|, j requires 0 <= j < |xLabels| =>
        var v := GetCellValue(data, xLabels[j], yLabels[i]);
        GridCell(xLabels[j], yLabels[i], v, CellLabel(v))))
  }

  /** A cell whose keys appear in no item shows nothing. */
  lemma AbsentCellIsEmpty(data: seq<Item>, xLabels: seq<string>, yLabels: seq<string>, i: nat, j: nat)
    requires i < |yLabels| && j < |xLabels|
    requires forall k :: 0 <= k < |data| ==> !Matches(data[k], xLabels[j], yLabels[i])
    ensures Grid(data, xLabels, yLabels)[i][j].text == Empty
  {
  }
}
