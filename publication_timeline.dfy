/**
 * The stacked bar chart of publications per month: a fixed 12-row pivot of
 * counts by output type, its tooltip total and its bars.
 */
module PublicationTimeline {
  import opened Wrappers
  import opened Seqs

  /** An input row: `{ title, frequency, outputType, month (1-12), count }`. */
  datatype MonthlyPublication = MonthlyPublication(
    title: string, frequency: string, outputType: string, month: int, count: int)

  /** A value in a chart row object: the month label or a count. */
  datatype Cell = Label(text: string) | Amount(n: int)

  const MonthNames: seq<string> :=
    ["Jan", "Feb", "Mar", "Apr", "May", "Jun", "Jul", "Aug", "Sep", "Oct", "Nov", "Dec"]

  predicate InMonthRange(m: int) {
    1 <= m <= 12
  }

  /** Sum of `count` over the rows of month `m` and output type `t`. */
  function MonthTotal(data: seq<MonthlyPublication>, m: int, t: string): int {
    if |data| == 0 then 0
    else
      var last := data[|data| - 1];
      MonthTotal(data[..|data| - 1], m, t) + (if last.month == m && last.outputType == t then last.count else 0)
  }

  /** Every output type in `outputTypes` mapped to 0. */
  function Zeros(outputTypes: seq<string>): (r: map<string, int>)
    ensures forall t :: t in r <==> t in outputTypes
    ensures forall t :: t in r ==> r[t] == 0
  {
    map t | t in outputTypes :: 0
  }

  /** The dictionary after aggregating `data`: month name to per-type totals. */
  ghost predicate Aggregated(monthly: map<string, map<string, int>>, data: seq<MonthlyPublication>, outputTypes: seq<string>) {
    forall m :: 0 <= m < 12 ==>
      && MonthNames[m] in monthly
      && (forall t :: t in monthly[MonthNames[m]] <==> t in outputTypes)
      && (forall t :: t in outputTypes ==> monthly[MonthNames[m]][t] == MonthTotal(data, m + 1, t))
  }

  /**
   * The object literal `{ name: month, ...counts }`: the spread comes after
   * `name`, so a count keyed `"name"` replaces the month label.
   */
  function Spread(month: string, counts: map<string, int>): (row: map<string, Cell>)
    ensures forall k :: k in row <==> k == "name" || k in counts
    ensures forall t :: t in counts ==> row[t] == Amount(counts[t])
    ensures "name" !in counts ==> row["name"] == Label(month)
  {
    map k | k in counts.Keys + {"name"} :: if k in counts then Amount(counts[k]) else Label(month)
  }

  lemma MonthNamesDistinct()
    ensures Distinct(MonthNames)
  {
  }

  /** `outputTypes.forEach(type => monthlyCounts[month][type] = 0)` for one month. */
  method ZeroCounts(outputTypes: seq<string>) returns (row: map<string, int>)
    ensures row == Zeros(outputTypes)
  {
    row := map[];
    var ti := 0;
    while ti < |outputTypes|
      invariant 0 <= ti <= |outputTypes|
      invariant row == Zeros(outputTypes[..ti])
    {
      assert outputTypes[..ti + 1] == outputTypes[..ti] + [outputTypes[ti]];
      row := row[outputTypes[ti] := 0];
      ti := ti + 1;
    }
    assert outputTypes[..ti] == outputTypes;
  }

  /** Adding one row's count to its month and type keeps the dictionary aggregated. */
  lemma AggregateStep(monthly: map<string, map<string, int>>, data: seq<MonthlyPublication>,
                      outputTypes: seq<string>, pub: MonthlyPublication, monthly': map<string, map<string, int>>)
    requires Aggregated(monthly, data, outputTypes)
    requires InMonthRange(pub.month) ==> pub.outputType in outputTypes
    requires monthly' == if !InMonthRange(pub.month) then monthly else
      var name := MonthNames[pub.month - 1];
      monthly[name := monthly[name][pub.outputType := monthly[name][pub.outputType] + pub.count]]
    ensures Aggregated(monthly', data + [pub], outputTypes)
  {
    assert (data + [pub])[..|data|] == data;
    MonthNamesDistinct();
  }

  /**
   * Initialise every month with 0 for every output type, add each in-range
   * row's count to its month and type, and list the months in calendar order
   * as `{ name: month, ...counts }` objects. The chart's x axis reads `name`:
   * it is the month label unless an output type is itself called `"name"`, in
   * which case that type's count takes its place. A row of an unlisted output type would make that cell `NaN`, so such rows
   * (within 1..12) are excluded by the precondition.
   */
  method TimelineData(data: seq<MonthlyPublication>, outputTypes: seq<string>) returns (rows: seq<map<string, Cell>>)
    requires forall i :: 0 <= i < |data| && InMonthRange(data[i].month) ==> data[i].outputType in outputTypes
    ensures |rows| == 12
    ensures forall m, k :: 0 <= m < 12 ==> (k in rows[m] <==> k == "name" || k in outputTypes)
    ensures forall m :: 0 <= m < 12 && "name" !in outputTypes ==> rows[m]["name"] == Label(MonthNames[m])
    ensures forall m, t :: 0 <= m < 12 && t in outputTypes ==> rows[m][t] == Amount(MonthTotal(data, m + 1, t))
  {
    var monthly: map<string, map<string, int>> := map[];
    var mi := 0;
    while mi < 12
      invariant 0 <= mi <= 12
      invariant forall m :: 0 <= m < mi ==> MonthNames[m] in monthly && monthly[MonthNames[m]] == Zeros(outputTypes)
    {
      var row := ZeroCounts(outputTypes);
      monthly := monthly[MonthNames[mi] := row];
      mi := mi + 1;
    }

    var i := 0;
    while i < |data|
      invariant 0 <= i <= |data|
      invariant Aggregated(monthly, data[..i], outputTypes)
    {
      var pub := data[i];
      var monthly' := monthly;
      if 1 <= pub.month <= 12 {
        var name := MonthNames[pub.month - 1];
        monthly' := monthly[name := monthly[name][pub.outputType := monthly[name][pub.outputType] + pub.count]];
      }
      AggregateStep(monthly, data[..i], outputTypes, pub, monthly');
      assert data[..i + 1] == data[..i] + [pub];
      monthly := monthly';
      i := i + 1;
    }
    assert data[..i] == data;
    rows := seq(12, m requires 0 <= m < 12 => Spread(MonthNames[m], monthly[MonthNames[m]]));
  }

  /** Rows whose month lies outside 1..12 add nothing to any month's totals. */
  lemma {:induction false} OutOfRangeRowsIgnored(data: seq<MonthlyPublication>, extra: seq<MonthlyPublication>, m: int, t: string)
    requires InMonthRange(m)
    requires forall i :: 0 <= i < |extra| ==> !InMonthRange(extra[i].month)
    ensures MonthTotal(data + extra, m, t) == MonthTotal(data, m, t)
  {
    if |extra| > 0 {
      var n := |extra| - 1;
      assert (data + extra)[..|data + extra| - 1] == data + extra[..n];
      OutOfRangeRowsIgnored(data, extra[..n], m, t);
    } else {
      assert data + extra == data;
    }
  }

  /** A tooltip line: `{ name, value, color }`. */
  datatype TooltipEntry = TooltipEntry(name: string, value: int, color: string)

  /** What the custom tooltip shows: the axis label, one line per entry, and the total. */
  datatype TooltipView = TooltipView(caption: string, lines: seq<TooltipEntry>, total: int)

  /** `payload.reduce((sum, entry) => sum + entry.value, acc)`. */
  function ReduceTotal(payload: seq<TooltipEntry>, acc: int): int {
    if |payload| == 0 then acc else ReduceTotal(payload[1..], acc + payload[0].value)
  }

  function Values(payload: seq<TooltipEntry>): (r: seq<int>)
    ensures |r| == |payload|
    ensures forall i :: 0 <= i < |payload| ==> r[i] == payload[i].value
  {
    seq(|payload|, i requires 0 <= i < |payload| => payload[i].value)
  }

  /** The left fold starting at `acc` is `acc` plus the sum of the values. */
  lemma {:induction false} ReduceTotalIsSum(payload: seq<TooltipEntry>, acc: int)
    ensures ReduceTotal(payload, acc) == acc + Sum(Values(payload))
  {
    if |payload| > 0 {
      ReduceTotalIsSum(payload[1..], acc + payload[0].value);
      assert Values(payload) == [payload[0].value] + Values(payload[1..]);
      SumAppend([payload[0].value], Values(payload[1..]));
      assert Sum([payload[0].value]) == payload[0].value by {
        assert [payload[0].value][..0] == [];
      }
    }
  }

  /** `CustomTooltip`: shown only while active with a non-empty payload. */
  function Tooltip(active: bool, payload: seq<TooltipEntry>, caption: string): (r: Option<TooltipView>)
    ensures r.Some? <==> active && |payload| > 0
    ensures r.Some? ==> r.value.lines == payload && r.value.total == Sum(Values(payload))
  {
    ReduceTotalIsSum(payload, 0);
    if active && |payload| > 0 then Some(TooltipView(caption, payload, ReduceTotal(payload, 0))) else None
  }

  /** One stacked bar: its data key, legend name, fill and corner radii. */
  datatype Bar = Bar(dataKey: string, name: string, fill: string, radius: seq<int>)

  /** `colors[i % colors.length]`; an empty palette yields `undefined`. */
  function ColorAt(colors: seq<string>, i: nat): (r: string)
    ensures |colors| > 0 ==> r in colors
  {
    if |colors| == 0 then "undefined" else colors[i % |colors|]
  }

  /** One bar per output type, in order; only the last has rounded top corners. */
  function Bars(outputTypes: seq<string>, colors: seq<string>): (r: seq<Bar>)
    ensures |r| == |outputTypes|
    ensures forall i :: 0 <= i < |r| ==> r[i].dataKey == outputTypes[i] && r[i].name == outputTypes[i]
    ensures forall i :: 0 <= i < |r| ==> r[i].fill == "hsl(" + ColorAt(colors, i) + ")"
    ensures forall i :: 0 <= i < |r| ==> (r[i].radius == [4, 4, 0, 0] <==> i == |r| - 1)
  {
    seq(|outputTypes|, i requires 0 <= i < |outputTypes| =>
      Bar(outputTypes[i], outputTypes[i], "hsl(" + ColorAt(colors, i) + ")",
          if i == |outputTypes| - 1 then [4, 4, 0, 0] else [0, 0, 0, 0]))
  }
}
