/**
 * `createChartConfig`: the chart configuration object, one label per slice
 * name plus the fixed `value` entry. Only the labels are modelled; each
 * configuration entry is `{ label }`.
 */
module ChartConfig {
  import opened Statistics

  /**
   * `config` is what the loop leaves: every slice name labelled with itself,
   * and `value` labelled "Count" unless a slice is itself named "value".
   */
  ghost predicate IsChartConfig(names: seq<string>, config: map<string, string>) {
    && (forall k :: k in config <==> k == "value" || k in names)
    && (forall k :: k in config ==> config[k] == if k in names then k else "Count")
  }

  /** Two configurations for the same names are equal. */
  lemma ChartConfigUnique(names: seq<string>, c1: map<string, string>, c2: map<string, string>)
    requires IsChartConfig(names, c1) && IsChartConfig(names, c2)
    ensures c1 == c2
  {
    assert c1.Keys == c2.Keys;
  }

  /** `config = { value: { label: "Count" } }; data.forEach(item => config[item.name] = { label: item.name })`. */
  method CreateChartConfig(data: seq<ChartEntry>) returns (config: map<string, string>)
    ensures "value" in config
    ensures forall i :: 0 <= i < |data| ==> data[i].name in config && config[data[i].name] == data[i].name
    ensures forall k :: k in config <==> k == "value" || k in Names(data)
    ensures "value" !in Names(data) ==> config["value"] == "Count"
    ensures IsChartConfig(Names(data), config)
  {
    config := map["value" := "Count"];
    var i := 0;
    while i < |data|
      invariant 0 <= i <= |data|
      invariant IsChartConfig(Names(data[..i]), config)
    {
      assert Names(data[..i + 1]) == Names(data[..i]) + [data[i].name];
      config := config[data[i].name := data[i].name];
      i := i + 1;
    }
    assert data[..i] == data;
  }

  /**
   * The configuration depends only on the slice names: data with the same
   * names in any values or colours configure the same chart.
   */
  lemma ConfigIgnoresValues(d1: seq<ChartEntry>, d2: seq<ChartEntry>, c1: map<string, string>, c2: map<string, string>)
    requires Names(d1) == Names(d2)
    requires IsChartConfig(Names(d1), c1) && IsChartConfig(Names(d2), c2)
    ensures c1 == c2
  {
    ChartConfigUnique(Names(d1), c1, c2);
  }
}
