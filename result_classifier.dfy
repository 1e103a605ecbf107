/**
 * The dashboard's result classifier (frontend/src/App.jsx): whether a query result
 * is drawn as a chart, which of its columns are the label and the value, and which
 * output section the panel shows.
 */
module ResultClassifier {
  import opened JsValues

  /** The `result` state: null or undefined, or an array of rows. */
  datatype ResultValue = Missing | Rows(rows: seq<Row>)

  /** A cell whose `typeof` is not "object": null, objects and arrays are excluded. */
  predicate IsScalar(v: JsValue) {
    v.Str? || v.Num? || v.Bool? || v.Undefined?
  }

  /** `isChartable()`: a non-empty result whose first row has at least two keys and
      whose first two cells are not objects. */
  predicate IsChartable(result: ResultValue)
    ensures IsChartable(result) ==> result.Rows? && |result.rows| > 0 && |result.rows[0]| >= 2
  {
    if result.Missing? || |result.rows| == 0 then false
    else
      var first := result.rows[0];
      var keys := Keys(first);
      |keys| >= 2 && TypeOf(Get(first, keys[0])) != "object" && TypeOf(Get(first, keys[1])) != "object"
  }

  /** Chartability in terms of the first row's first two cells. */
  lemma ChartableIff(result: ResultValue)
    requires result.Rows? && |result.rows| > 0 ==> DistinctKeys(result.rows[0])
    ensures IsChartable(result) <==>
      && result.Rows?
      && |result.rows| > 0
      && |result.rows[0]| >= 2
      && IsScalar(result.rows[0][0].1)
      && IsScalar(result.rows[0][1].1)
  {
    if result.Rows? && |result.rows| > 0 && |result.rows[0]| >= 2 {
      GetStored(result.rows[0], 0);
      GetStored(result.rows[0], 1);
    }
  }

  /** The two key selectors read `keys[0]` and `keys[1]` of the first row. */
  predicate HasTwoKeys(rows: seq<Row>) {
    |rows| > 0 && |rows[0]| >= 2
  }

  /** `getLabelKey()`: the first key when the first cell is a string, else the second. */
  function GetLabelKey(rows: seq<Row>): (k: string)
    requires HasTwoKeys(rows)
    ensures k == if rows[0][0].1.Str? then rows[0][0].0 else rows[0][1].0
  {
    var keys := Keys(rows[0]);
    if TypeOf(Get(rows[0], keys[0])) == "string" then keys[0] else keys[1]
  }

  /** `getValueKey()`: the first key when the first cell is a number, else the second. */
  function GetValueKey(rows: seq<Row>): (k: string)
    requires HasTwoKeys(rows)
    ensures k == if rows[0][0].1.Num? then rows[0][0].0 else rows[0][1].0
  {
    var keys := Keys(rows[0]);
    if TypeOf(Get(rows[0], keys[0])) == "number" then keys[0] else keys[1]
  }

  /** The three ways the label and value keys can fall. */
  lemma LabelValueSelection(rows: seq<Row>)
    requires HasTwoKeys(rows)
    ensures rows[0][0].1.Str? ==> GetLabelKey(rows) == rows[0][0].0 && GetValueKey(rows) == rows[0][1].0
    ensures rows[0][0].1.Num? ==> GetLabelKey(rows) == rows[0][1].0 && GetValueKey(rows) == rows[0][0].0
    ensures !rows[0][0].1.Str? && !rows[0][0].1.Num? ==>
      GetLabelKey(rows) == rows[0][1].0 && GetValueKey(rows) == rows[0][1].0
  {
  }

  /** What the panel shows below the SQL block. The raw-output test reads `result.length`,
      which throws on a null or undefined result. */
  datatype Section = ChartOutput | RawOutput | NoOutput | RenderThrows

  function OutputSection(result: ResultValue): (s: Section)
    ensures s == ChartOutput <==> IsChartable(result)
    ensures s == RawOutput <==> !IsChartable(result) && result.Rows? && |result.rows| > 0
    ensures s == RenderThrows <==> result.Missing?
    ensures result == Rows([]) ==> s == NoOutput
  {
    if IsChartable(result) then ChartOutput
    else if result.Missing? then RenderThrows
    else if |result.rows| > 0 then RawOutput
    else NoOutput
  }
}
