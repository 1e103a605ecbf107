/**
 * The dashboard's chart adapter (frontend/src/App.jsx): the data object handed to the
 * charting library for each chart kind, and the column-count notices for scatter and bubble.
 */
module ChartAdapter {
  import opened Wrappers
  import opened JsValues
  import opened ResultClassifier

  /** The eight bar/slice colours of the categorical charts. */
  const Palette: seq<string> :=
    ["#0d6efd", "#6610f2", "#6f42c1", "#0dcaf0", "#20c997", "#052c65", "#6c757d", "#6366f1"]

  const ScatterColor: string := "#2563eb"
  const BubbleColor: string := "#10b981"
  const ScatterNotice: string := "Scatter chart requires 2 numeric fields."
  const BubbleNotice: string := "Bubble chart requires 3 numeric fields."

  /** A dataset; `seriesLabel` is its `label` property. */
  datatype Dataset = Dataset(seriesLabel: string, data: seq<JsValue>, backgroundColor: seq<string>)
  datatype ChartData = ChartData(labels: seq<JsValue>, datasets: seq<Dataset>)

  datatype Point = Point(x: JsValue, y: JsValue)
  datatype Bubble = Bubble(x: JsValue, y: JsValue, r: int)

  /** The chart components of the categorical kinds. */
  datatype Component = BarChart | PieChart | DoughnutChart | LineChart | PolarAreaChart | RadarChart

  /** What `renderChart()` puts on the page. `horizontal` is the `indexAxis: "y"` option. */
  datatype View =
    | CategoryChart(component: Component, data: ChartData, horizontal: bool)
    | ScatterChart(seriesLabel: string, points: seq<Point>, color: string)
    | BubbleChart(seriesLabel: string, bubbles: seq<Bubble>, color: string)
    | Notice(text: string)

  /** `result.map((row) => row[key])`. */
  function Pluck(rows: seq<Row>, key: string): seq<JsValue> {
    seq(|rows|, i requires 0 <= i < |rows| => Get(rows[i], key))
  }

  /** `chartData()`: the label column as labels and the value column as the one dataset. */
  function ChartDataOf(rows: seq<Row>): (d: ChartData)
    requires HasTwoKeys(rows)
    ensures |d.datasets| == 1 && d.datasets[0].seriesLabel == GetValueKey(rows)
    ensures d.datasets[0].backgroundColor == Palette
    ensures |d.labels| == |rows| && |d.datasets[0].data| == |rows|
    ensures forall i :: 0 <= i < |rows| ==>
      d.labels[i] == Get(rows[i], GetLabelKey(rows)) && d.datasets[0].data[i] == Get(rows[i], GetValueKey(rows))
  {
    ChartData(Pluck(rows, GetLabelKey(rows)), [Dataset(GetValueKey(rows), Pluck(rows, GetValueKey(rows)), Palette)])
  }

  /** Every row has distinct keys in the first row's key order (assumed of a query result). */
  predicate Uniform(rows: seq<Row>) {
    forall i :: 0 <= i < |rows| ==> DistinctKeys(rows[i]) && Keys(rows[i]) == Keys(rows[0])
  }

  /** With a string first column, the chart plots column 0 of each row as its label and
      column 1 as its value; with a number first column, the other way round. */
  lemma ChartDataColumns(rows: seq<Row>)
    requires HasTwoKeys(rows) && Uniform(rows)
    ensures rows[0][0].1.Str? ==> forall i :: 0 <= i < |rows| ==>
      ChartDataOf(rows).labels[i] == rows[i][0].1 && ChartDataOf(rows).datasets[0].data[i] == rows[i][1].1
    ensures rows[0][0].1.Num? ==> forall i :: 0 <= i < |rows| ==>
      ChartDataOf(rows).labels[i] == rows[i][1].1 && ChartDataOf(rows).datasets[0].data[i] == rows[i][0].1
  {
    forall i | 0 <= i < |rows|
      ensures Get(rows[i], rows[0][0].0) == rows[i][0].1 && Get(rows[i], rows[0][1].0) == rows[i][1].1
    {
      assert Keys(rows[i])[0] == Keys(rows[0])[0] && Keys(rows[i])[1] == Keys(rows[0])[1];
      GetStored(rows[i], 0);
      GetStored(rows[i], 1);
    }
  }

  /** `Math.min` and `Math.max` on numbers that may be NaN (None): NaN wins. */
  function MathMin(a: Option<int>, b: Option<int>): Option<int> {
    if a.None? || b.None? then None else Some(if a.value <= b.value then a.value else b.value)
  }

  function MathMax(a: Option<int>, b: Option<int>): Option<int> {
    if a.None? || b.None? then None else Some(if a.value >= b.value then a.value else b.value)
  }

  /** `x || d` on a number: NaN and 0 are falsy. */
  function OrElse(x: Option<int>, d: int): int {
    if x.None? || x.value == 0 then d else x.value
  }

  /** `Math.max(5, Math.min(20, Number(v))) || 10`. */
  function BubbleRadius(v: JsValue): (r: int)
    ensures 5 <= r <= 20
    ensures ToNumber(v).None? ==> r == 10
    ensures ToNumber(v).Some? && 5 <= ToNumber(v).value <= 20 ==> r == ToNumber(v).value
    ensures ToNumber(v).Some? && ToNumber(v).value < 5 ==> r == 5
    ensures ToNumber(v).Some? && ToNumber(v).value > 20 ==> r == 20
  {
    OrElse(MathMax(Some(5), MathMin(Some(20), ToNumber(v))), 10)
  }

  /** `Object.keys(result[0] || {})`. */
  function ViewKeys(rows: seq<Row>): seq<string> {
    if |rows| == 0 then [] else Keys(rows[0])
  }

  /** The scatter branch: one point per row from the first two keys, or a notice. */
  function ScatterView(rows: seq<Row>): (v: View)
    ensures |ViewKeys(rows)| < 2 <==> v == Notice(ScatterNotice)
    ensures |ViewKeys(rows)| >= 2 ==>
      && v.ScatterChart?
      && v.seriesLabel == GetValueKey(rows)
      && v.color == ScatterColor
      && |v.points| == |rows|
      && forall i :: 0 <= i < |rows| ==>
           v.points[i] == Point(Get(rows[i], rows[0][0].0), Get(rows[i], rows[0][1].0))
  {
    var keys := ViewKeys(rows);
    if |keys| >= 2 then
      ScatterChart(
        GetValueKey(rows),
        seq(|rows|, i requires 0 <= i < |rows| => Point(Get(rows[i], keys[0]), Get(rows[i], keys[1]))),
        ScatterColor)
    else Notice(ScatterNotice)
  }

  /** The bubble branch: one bubble per row from the first three keys, or a notice. */
  function BubbleView(rows: seq<Row>): (v: View)
    ensures |ViewKeys(rows)| < 3 <==> v == Notice(BubbleNotice)
    ensures |ViewKeys(rows)| >= 3 ==>
      && v.BubbleChart?
      && v.seriesLabel == rows[0][2].0
      && v.color == BubbleColor
      && |v.bubbles| == |rows|
      && forall i :: 0 <= i < |rows| ==>
           && v.bubbles[i].x == Get(rows[i], rows[0][0].0)
           && v.bubbles[i].y == Get(rows[i], rows[0][1].0)
           && v.bubbles[i].r == BubbleRadius(Get(rows[i], rows[0][2].0))
           && 5 <= v.bubbles[i].r <= 20
           && (ToNumber(Get(rows[i], rows[0][2].0)).None? ==> v.bubbles[i].r == 10)
  {
    var keys := ViewKeys(rows);
    if |keys| >= 3 then
      BubbleChart(
        keys[2],
        seq(|rows|, i requires 0 <= i < |rows| =>
          Bubble(Get(rows[i], keys[0]), Get(rows[i], keys[1]), BubbleRadius(Get(rows[i], keys[2])))),
        BubbleColor)
    else Notice(BubbleNotice)
  }

  /** `renderChart()`, which the panel calls only for a chartable result. Unknown kinds
      fall back to the bar chart. Of the two notices only the bubble one can appear:
      a chartable result always has the two keys scatter needs. */
  function RenderChart(rows: seq<Row>, visualType: string): (v: View)
    requires IsChartable(Rows(rows))
    ensures v.Notice? <==> visualType == "bubble" && |rows[0]| < 3
    ensures v.Notice? ==> v.text == BubbleNotice
    ensures visualType == "scatter" ==> v == ScatterView(rows) && v.ScatterChart? && |v.points| == |rows|
    ensures visualType == "bubble" ==> v == BubbleView(rows)
    ensures visualType == "bubble" && |rows[0]| >= 3 ==> v.BubbleChart? && |v.bubbles| == |rows|
    ensures visualType !in {"scatter", "bubble"} ==>
      v.CategoryChart? && v.data == ChartDataOf(rows) && (v.horizontal <==> visualType == "hbar")
    ensures visualType in {"pie", "doughnut", "line", "polar", "radar"} ==> !v.horizontal
    ensures visualType == "pie" ==> v.component == PieChart
    ensures visualType == "doughnut" ==> v.component == DoughnutChart
    ensures visualType == "line" ==> v.component == LineChart
    ensures visualType == "polar" ==> v.component == PolarAreaChart
    ensures visualType == "radar" ==> v.component == RadarChart
    ensures visualType !in {"pie", "doughnut", "line", "polar", "radar", "scatter", "bubble"} ==>
      v.component == BarChart
  {
    var data := ChartDataOf(rows);
    match visualType
    case "bar" => CategoryChart(BarChart, data, false)
    case "hbar" => CategoryChart(BarChart, data, true)
    case "pie" => CategoryChart(PieChart, data, false)
    case "doughnut" => CategoryChart(DoughnutChart, data, false)
    case "line" => CategoryChart(LineChart, data, false)
    case "polar" => CategoryChart(PolarAreaChart, data, false)
    case "radar" => CategoryChart(RadarChart, data, false)
    case "scatter" => ScatterView(rows)
    case "bubble" => BubbleView(rows)
    case _ => CategoryChart(BarChart, data, false)
  }

  /** The department-count example: a bar chart of the counts labelled by department. */
  lemma DepartmentCountsExample()
    ensures
      var rows := [[("dept", Str("Sales")), ("count", Num(5))], [("dept", Str("Eng")), ("count", Num(9))]];
      && IsChartable(Rows(rows))
      && RenderChart(rows, "bar") == CategoryChart(BarChart,
           ChartData([Str("Sales"), Str("Eng")], [Dataset("count", [Num(5), Num(9)], Palette)]), false)
  {
    var rows := [[("dept", Str("Sales")), ("count", Num(5))], [("dept", Str("Eng")), ("count", Num(9))]];
    assert Keys(rows[0]) == ["dept", "count"];
    assert ChartDataOf(rows).labels == [Str("Sales"), Str("Eng")];
    assert ChartDataOf(rows).datasets[0].data == [Num(5), Num(9)];
  }
}
