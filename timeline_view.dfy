/**
 * The vertical timeline's interaction state: the locked selection, the hovered
 * point, the view mode, the sort direction, the filter selections and the
 * search box.
 */
module TimelineView {
  import opened Wrappers
  import opened Seqs
  import opened Timeline

  /** A selected or hovered point together with the group it was shown in. */
  datatype Selection = Selection(point: Point, group: TimeGroup)

  /** Same time and same publication object (its row). */
  predicate SamePoint(a: Point, b: Point) {
    a.date == b.date && a.index == b.index
  }

  /** `isSelected` of a rendered point. */
  predicate IsSelected(selected: Option<Selection>, p: Point) {
    selected.Some? && SamePoint(selected.value.point, p)
  }

  /** `handlePointClick`: clicking the selected point unlocks it; any other point becomes the selection. */
  function Click(selected: Option<Selection>, p: Point, group: TimeGroup): (r: Option<Selection>)
    ensures r.None? <==> IsSelected(selected, p)
    ensures r.Some? ==> r.value == Selection(p, group)
  {
    if IsSelected(selected, p) then None else Some(Selection(p, group))
  }

  /** Clicking the same point twice restores whether it was selected. */
  lemma ClickTwice(selected: Option<Selection>, p: Point, group: TimeGroup)
    ensures IsSelected(Click(Click(selected, p, group), p, group), p) <==> IsSelected(selected, p)
  {
  }

  /** `selectedPoint || hoveredPoint`. */
  function Active(selected: Option<Selection>, hovered: Option<Selection>): (r: Option<Selection>)
    ensures selected.Some? ==> r == selected
    ensures selected.None? ==> r == hovered
  {
    if selected.Some? then selected else hovered
  }

  /** A checkbox's `onCheckedChange`: append when checked, drop every copy when unchecked. */
  function Check(selection: seq<string>, value: string, checked: bool): (r: seq<string>)
    ensures checked ==> r == selection + [value]
    ensures !checked ==> value !in r && forall v :: v in selection && v != value ==> v in r
    ensures !checked ==> forall v :: v in r ==> v in selection
  {
    if checked then selection + [value] else Filter(selection, (v: string) => v != value)
  }

  /** Unchecking a value that checking just added gives back the earlier selection. */
  lemma {:induction false} UncheckAfterCheck(selection: seq<string>, value: string)
    requires value !in selection
    ensures Check(Check(selection, value, true), value, false) == selection
  {
    FilterKeepsAll(selection, value);
    var s := selection + [value];
    assert s[..|s| - 1] == selection;
  }

  lemma {:induction false} FilterKeepsAll(selection: seq<string>, value: string)
    requires value !in selection
    ensures Filter(selection, (v: string) => v != value) == selection
  {
    if |selection| > 0 {
      var n := |selection| - 1;
      FilterKeepsAll(selection[..n], value);
      assert selection == selection[..n] + [selection[n]];
    }
  }

  /** The component's state. */
  class TimelineState {
    var selected: Option<Selection>
    var hovered: Option<Selection>
    var viewMode: ViewMode
    var sortAscending: bool
    var filters: Filters

    /** Daily view, newest first, nothing selected or filtered. */
    constructor()
      ensures selected == None && hovered == None && viewMode == Day && !sortAscending
      ensures filters == NoFilters && TotalActiveFilters(filters) == 0
    {
      selected, hovered, viewMode, sortAscending, filters := None, None, Day, false, NoFilters;
    }

    /** What the info panel shows. */
    function ActivePoint(): Option<Selection>
      reads this
    {
      Active(selected, hovered)
    }

    method PointClick(p: Point, group: TimeGroup)
      modifies this
      ensures selected == Click(old(selected), p, group)
      ensures hovered == old(hovered) && viewMode == old(viewMode)
      ensures sortAscending == old(sortAscending) && filters == old(filters)
    {
      selected := Click(selected, p, group);
    }

    method PointMouseEnter(p: Point, group: TimeGroup)
      modifies this
      ensures hovered == Some(Selection(p, group))
      ensures old(selected).None? ==> ActivePoint() == Some(Selection(p, group))
      ensures selected == old(selected) && viewMode == old(viewMode)
      ensures sortAscending == old(sortAscending) && filters == old(filters)
    {
      hovered := Some(Selection(p, group));
    }

    method PointMouseLeave()
      modifies this
      ensures hovered == None && ActivePoint() == selected
      ensures selected == old(selected) && viewMode == old(viewMode)
      ensures sortAscending == old(sortAscending) && filters == old(filters)
    {
      hovered := None;
    }

    /** The "Clear" button under the info panel. */
    method ClearSelection()
      modifies this
      ensures selected == None && ActivePoint() == hovered
      ensures hovered == old(hovered) && viewMode == old(viewMode)
      ensures sortAscending == old(sortAscending) && filters == old(filters)
    {
      selected := None;
    }

    method CheckAlignment(value: string, checked: bool)
      modifies this
      ensures filters == old(filters).(alignments := Check(old(filters).alignments, value, checked))
      ensures selected == old(selected) && hovered == old(hovered)
      ensures viewMode == old(viewMode) && sortAscending == old(sortAscending)
    {
      filters := filters.(alignments := Check(filters.alignments, value, checked));
    }

    method CheckDirectorate(value: string, checked: bool)
      modifies this
      ensures filters == old(filters).(directorates := Check(old(filters).directorates, value, checked))
      ensures selected == old(selected) && hovered == old(hovered)
      ensures viewMode == old(viewMode) && sortAscending == old(sortAscending)
    {
      filters := filters.(directorates := Check(filters.directorates, value, checked));
    }

    method CheckDivision(value: string, checked: bool)
      modifies this
      ensures filters == old(filters).(divisions := Check(old(filters).divisions, value, checked))
      ensures selected == old(selected) && hovered == old(hovered)
      ensures viewMode == old(viewMode) && sortAscending == old(sortAscending)
    {
      filters := filters.(divisions := Check(filters.divisions, value, checked));
    }

    method SetSearchQuery(query: string)
      modifies this
      ensures filters == old(filters).(query := query)
      ensures selected == old(selected) && hovered == old(hovered)
      ensures viewMode == old(viewMode) && sortAscending == old(sortAscending)
    {
      filters := filters.(query := query);
    }

    /** `clearAllFilters`: the selections and the query are emptied, so no filter is active. */
    method ClearAllFilters()
      modifies this
      ensures filters == NoFilters && TotalActiveFilters(filters) == 0
      ensures forall p :: PassesFilters(p, filters)
      ensures selected == old(selected) && hovered == old(hovered)
      ensures viewMode == old(viewMode) && sortAscending == old(sortAscending)
    {
      filters := NoFilters;
    }

    method SetViewMode(mode: ViewMode)
      modifies this
      ensures viewMode == mode
      ensures selected == old(selected) && hovered == old(hovered)
      ensures sortAscending == old(sortAscending) && filters == old(filters)
    {
      viewMode := mode;
    }

    /** The sort button flips the direction. */
    method ToggleSortOrder()
      modifies this
      ensures sortAscending == !old(sortAscending)
      ensures selected == old(selected) && hovered == old(hovered)
      ensures viewMode == old(viewMode) && filters == old(filters)
    {
      sortAscending := !sortAscending;
    }
  }
}
