/**
 * The statistics page's four pie-chart tallies (frequency, directorate,
 * output type, alignment), written once and parameterised by the column.
 */
module Statistics {
  import opened Seqs
  import opened Records
  import opened Grouping

  /** One pie slice: `{ name, value, fill }`. */
  datatype ChartEntry = ChartEntry(name: string, value: nat, fill: string)

  function Names(entries: seq<ChartEntry>): (r: seq<string>)
    ensures |r| == |entries|
    ensures forall i :: 0 <= i < |entries| ==> r[i] == entries[i].name
  {
    seq(|entries|, i requires 0 <= i < |entries| => entries[i].name)
  }

  /** Sum of the slices' values. */
  function TotalValue(entries: seq<ChartEntry>): int {
    if |entries| == 0 then 0 else TotalValue(entries[..|entries| - 1]) + entries[|entries| - 1].value
  }

  /** When each slice's value is its name's count, the total is the sum of the counts. */
  lemma {:induction false} TotalValueIsSumOfCounts(entries: seq<ChartEntry>, values: seq<string>)
    requires forall i :: 0 <= i < |entries| ==> entries[i].value == Count(values, entries[i].name)
    ensures TotalValue(entries) == SumOfCounts(Names(entries), values)
  {
    if |entries| > 0 {
      var n := |entries| - 1;
      TotalValueIsSumOfCounts(entries[..n], values);
      assert Names(entries)[..n] == Names(entries[..n]);
    }
  }

  /**
   * `entries` tallies `values`: one slice per distinct value in first-seen
   * order, valued by its number of occurrences and coloured by position.
   */
  ghost predicate IsTally(entries: seq<ChartEntry>, values: seq<string>) {
    && Names(entries) == Dedup(values)
    && (forall i :: 0 <= i < |entries| ==> entries[i].value == Count(values, entries[i].name))
    && (forall i :: 0 <= i < |entries| ==> entries[i].fill == Cycle(HslChartColors, i))
  }

  /** A tally counts every value exactly once and has no empty slice. */
  lemma TallyFacts(entries: seq<ChartEntry>, values: seq<string>)
    requires IsTally(entries, values)
    ensures Distinct(Names(entries))
    ensures forall i :: 0 <= i < |entries| ==> entries[i].value >= 1
    ensures forall v :: v in values ==> v in Names(entries)
    ensures TotalValue(entries) == |values|
  {
    forall i | 0 <= i < |entries| ensures entries[i].value >= 1 {
      assert Names(entries)[i] in values;
    }
    TotalValueIsSumOfCounts(entries, values);
    SumOfCountsIsLength(Names(entries), values);
  }

  /** Turn the counting dictionary into slices: `Object.entries(counts).map(...)`. */
  function ToEntries(order: seq<string>, counts: map<string, nat>): (entries: seq<ChartEntry>)
    requires forall k :: k in order ==> k in counts
    ensures Names(entries) == order
    ensures forall i :: 0 <= i < |entries| ==> entries[i].value == counts[order[i]]
    ensures forall i :: 0 <= i < |entries| ==> entries[i].fill == Cycle(HslChartColors, i)
  {
    seq(|order|, i requires 0 <= i < |order| => ChartEntry(order[i], counts[order[i]], Cycle(HslChartColors, i)))
  }

  /**
   * `if (!data.length) return []`, then count each row under its column value
   * (blank as "Unknown") and turn the dictionary into slices, the i-th slice
   * coloured `chartColors[i % chartColors.length]`.
   */
  method GroupCount(data: seq<Publication>, field: Field) returns (entries: seq<ChartEntry>)
    ensures |data| == 0 ==> entries == []
    ensures IsTally(entries, Categories(data, field))
    ensures Distinct(Names(entries))
    ensures forall i :: 0 <= i < |entries| ==> entries[i].value >= 1 && entries[i].name != ""
    ensures forall j :: 0 <= j < |data| ==> Category(data[j], field) in Names(entries)
    ensures TotalValue(entries) == |data|
  {
    var values := Categories(data, field);
    if |data| == 0 {
      entries := [];
    } else {
      var order, counts := Tally(values);
      entries := ToEntries(order, counts);
    }
    TallyFacts(entries, values);
    forall i | 0 <= i < |entries| ensures entries[i].name != "" {
      assert Names(entries)[i] in values;
    }
  }
}
