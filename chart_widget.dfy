/**
  The chart widget: a chain of early returns (loading, failure, no data) and
  then one point per row, its value the numeric conversion of the first field
  mapping's last-segment lookup. `Number()` is the parameter `toNumber`, whose
  result type `N` is left abstract.
 */
module ChartWidget {
  import opened JsValue
  import opened WidgetTypes
  import TableWidget

  /** One plotted point: the row's position and its numeric value. */
  datatype Point<N> = Point(index: nat, value: N)

  /** What the chart widget renders. */
  datatype ChartView<N> = LoadingChart | FailedChart | NoChartData | Plot(points: seq<Point<N>>)

  /** The chart's row selection: the array itself, else `data.products`, else `data.data`, else none. */
  function ChartRows(data: Json): (r: Result<seq<Json>>)
    ensures r.Throw? <==> IsNullish(data)
    ensures Truthy(data) ==> r == Ok(TableWidget.Rows(data))
    ensures !IsNullish(data) && !Truthy(data) ==> r == Ok([])
  {
    if data.Arr? then Ok(data.items)
    else
      match Prop(data, "products")
      case Throw(e) => Throw(e)
      case Ok(products) =>
        if products.Arr? then Ok(products.items)
        else
          match Prop(data, "data")
          case Throw(e) => Throw(e)
          case Ok(inner) => if inner.Arr? then Ok(inner.items) else Ok([])
  }

  /** `rows.map((row, index) => ({ index, value: Number(lookup) }))`: the first throwing lookup ends the map. */
  function Series<N>(rows: seq<Json>, field: FieldMapping, toNumber: Json -> N): (r: Result<seq<Point<N>>>)
    ensures r.Throw? <==> exists i :: 0 <= i < |rows| && TableWidget.ThrowingRow(rows[i])
    ensures r.Ok? ==> |r.value| == |rows|
    ensures r.Ok? ==> forall i :: 0 <= i < |rows| ==>
      TableWidget.FieldValue(rows[i], field).Ok? &&
      r.value[i] == Point(i, toNumber(TableWidget.FieldValue(rows[i], field).value))
  {
    match MapResults(rows, row => TableWidget.FieldValue(row, field))
    case Throw(e) => Throw(e)
    case Ok(values) => Ok(seq(|values|, i requires 0 <= i < |values| => Point(i, toNumber(values[i]))))
  }

  /** The chart widget's view of a query state. */
  function Chart<N>(data: Json, isLoading: bool, hasError: bool, fields: seq<FieldMapping>,
                    toNumber: Json -> N): (r: Result<ChartView<N>>)
    ensures isLoading ==> r == Ok(LoadingChart)
    ensures !isLoading && (hasError || !Truthy(data)) ==> r == Ok(FailedChart)
    ensures !isLoading && !hasError && Truthy(data) && (TableWidget.Rows(data) == [] || fields == [])
      ==> r == Ok(NoChartData)
    ensures r.Ok? && r.value.Plot? ==>
      var rows := TableWidget.Rows(data);
      |r.value.points| == |rows| && rows != [] && fields != [] &&
      forall i :: 0 <= i < |rows| ==>
        r.value.points[i].index == i &&
        TableWidget.FieldValue(rows[i], fields[0]).Ok? &&
        r.value.points[i].value == toNumber(TableWidget.FieldValue(rows[i], fields[0]).value)
    ensures !isLoading && !hasError && Truthy(data) && TableWidget.Rows(data) != [] && fields != [] ==>
      (r.Throw? <==> exists i :: 0 <= i < |TableWidget.Rows(data)| && TableWidget.ThrowingRow(TableWidget.Rows(data)[i])) &&
      (r.Ok? ==> r.value.Plot?)
  {
    if isLoading then Ok(LoadingChart)
    else if hasError || !Truthy(data) then Ok(FailedChart)
    else
      var rows := ChartRows(data).value;
      if |rows| == 0 || |fields| == 0 then Ok(NoChartData)
      else
        match Series(rows, fields[0], toNumber)
        case Throw(e) => Throw(e)
        case Ok(points) => Ok(Plot(points))
  }

  /** Only the first field mapping matters: charts agreeing on it are the same chart. */
  lemma FirstFieldOnly<N>(data: Json, isLoading: bool, hasError: bool, f1: seq<FieldMapping>, f2: seq<FieldMapping>,
                          toNumber: Json -> N)
    requires f1 != [] && f2 != [] && f1[0] == f2[0]
    ensures Chart(data, isLoading, hasError, f1, toNumber) == Chart(data, isLoading, hasError, f2, toNumber)
  {
  }
}
