/**
 * The publication record (one CSV row) and the colour palettes shared by the
 * dashboard views. A missing or empty CSV cell is the empty string here; the
 * JavaScript expression `field || "Unknown"` treats both alike.
 */
module Records {

  datatype Publication = Publication(
    title: string,
    directorate: string,
    division: string,
    dd: string,
    baLead: string,
    frequency: string,
    outputType: string,
    alignment: string,   // the "PO2 alignment (FY25/26)" column
    publishDates: string // semicolon-separated dates; empty outside the timeline data
  )

  /** The categorical columns the views group by. */
  datatype Field = Frequency | Directorate | Division | OutputType | Alignment

  function Get(p: Publication, f: Field): string {
    match f
    case Frequency => p.frequency
    case Directorate => p.directorate
    case Division => p.division
    case OutputType => p.outputType
    case Alignment => p.alignment
  }

  /** `value || fallback`: an empty string is replaced by the fallback. */
  function OrDefault(value: string, fallback: string): string {
    if value == "" then fallback else value
  }

  /** The column's value with a blank replaced by "Unknown". */
  function Category(p: Publication, f: Field): (r: string)
    ensures r != ""
    ensures Get(p, f) != "" ==> r == Get(p, f)
  {
    OrDefault(Get(p, f), "Unknown")
  }

  /** The defaulted values of one column, row by row. */
  function Categories(data: seq<Publication>, f: Field): (r: seq<string>)
    ensures |r| == |data|
    ensures forall i :: 0 <= i < |data| ==> r[i] == Category(data[i], f)
  {
    seq(|data|, i requires 0 <= i < |data| => Category(data[i], f))
  }

  /** The statistics and tree-map pages' palette. */
  const HslChartColors: seq<string> := [
    "hsl(var(--chart-1))", "hsl(var(--chart-2))", "hsl(var(--chart-3))", "hsl(var(--chart-4))",
    "hsl(var(--chart-5))", "hsl(var(--chart-6))", "hsl(var(--chart-7))", "hsl(var(--chart-8))"
  ]

  /** The tree-map component's palette (wrapped in `hsl(...)` when drawn). */
  const VarChartColors: seq<string> := [
    "var(--chart-1)", "var(--chart-2)", "var(--chart-3)", "var(--chart-4)",
    "var(--chart-5)", "var(--chart-6)", "var(--chart-7)", "var(--chart-8)"
  ]

  /** `palette[i % palette.length]`. */
  function Cycle(palette: seq<string>, i: nat): string
    requires |palette| > 0
  {
    palette[i % |palette|]
  }
}
