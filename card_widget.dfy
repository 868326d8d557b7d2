/**
  The card widget: a loading line, an error line, and, when there is data, one
  label/value line per field mapping, resolved by its full path.
 */
module CardWidget {
  import opened JsString
  import opened JsValue
  import opened PathResolver
  import opened WidgetTypes

  /** One line of the card: the mapping's label and what is shown for its value. */
  datatype Entry = Entry(labelText: string, shown: Display)

  /** What the card widget renders: its two indicators and, when data is truthy, its lines. */
  datatype CardView = CardView(loading: bool, failed: bool, entries: Option<seq<Entry>>)

  /** `value !== undefined ? String(value) : "--"`: only undefined shows the placeholder. */
  function ValueDisplay(v: Json): (d: Display)
    ensures d.Placeholder? <==> v == Undef
    ensures d.Stringified? ==> d.v == v
  {
    if v != Undef then Stringified(v) else Placeholder
  }

  /** `fields.map(...)`: one line per mapping, in order; a throwing lookup aborts the render. */
  function Entries(data: Json, fields: seq<FieldMapping>): (r: Result<seq<Entry>>)
    ensures r.Throw? <==> exists j :: 0 <= j < |fields| && GetValueByPath(data, fields[j].jsonPath).Throw?
    ensures r.Ok? ==> |r.value| == |fields|
    ensures r.Ok? ==> forall j :: 0 <= j < |fields| ==>
      r.value[j].labelText == fields[j].labelText &&
      GetValueByPath(data, fields[j].jsonPath).Ok? &&
      r.value[j].shown == ValueDisplay(GetValueByPath(data, fields[j].jsonPath).value)
    decreases |fields|
  {
    if fields == [] then Ok([])
    else
      assert forall j :: 1 <= j < |fields| ==> fields[j] == fields[1..][j - 1];
      match GetValueByPath(data, fields[0].jsonPath)
      case Throw(e) => Throw(e)
      case Ok(v) =>
        match Entries(data, fields[1..])
        case Throw(e) => Throw(e)
        case Ok(rest) => Ok([Entry(fields[0].labelText, ValueDisplay(v))] + rest)
  }

  /** The card widget's view of a query state. */
  function Card(data: Json, isLoading: bool, hasError: bool, fields: seq<FieldMapping>): (r: Result<CardView>)
    ensures r.Throw? <==> Truthy(data) && Entries(data, fields).Throw?
    ensures r.Ok? ==> r.value.loading == isLoading && r.value.failed == hasError
    ensures r.Ok? ==> (r.value.entries.Some? <==> Truthy(data))
    ensures r.Ok? && r.value.entries.Some? ==> Entries(data, fields) == Ok(r.value.entries.value)
  {
    if !Truthy(data) then Ok(CardView(isLoading, hasError, None))
    else
      match Entries(data, fields)
      case Throw(e) => Throw(e)
      case Ok(entries) => Ok(CardView(isLoading, hasError, Some(entries)))
  }

  /**
    The card resolves the whole path (where the table and the chart use only its
    last segment): a two-level path reaches the nested value.
   */
  lemma FullPathResolved(outerKey: string, innerKey: string, v: Json, labelText: string, format: Option<Format>,
                         isLoading: bool, hasError: bool)
    requires '.' !in outerKey && '.' !in innerKey
    ensures Card(Obj([(outerKey, Obj([(innerKey, v)]))]), isLoading, hasError,
                 [FieldMapping(labelText, outerKey + "." + innerKey, format)])
         == Ok(CardView(isLoading, hasError, Some([Entry(labelText, ValueDisplay(v))])))
  {
    var data := Obj([(outerKey, Obj([(innerKey, v)]))]);
    var fields := [FieldMapping(labelText, outerKey + "." + innerKey, format)];
    NestedPath(outerKey, innerKey, v);
    var r := Entries(data, fields);
    assert r.Ok? && |r.value| == 1;
    assert r.value == [Entry(labelText, ValueDisplay(v))];
  }

  /** `getValueByPath` follows `outer.inner` through two nested objects. */
  lemma NestedPath(outerKey: string, innerKey: string, v: Json)
    requires '.' !in outerKey && '.' !in innerKey
    ensures GetValueByPath(Obj([(outerKey, Obj([(innerKey, v)]))]), outerKey + "." + innerKey) == Ok(v)
  {
    var inner := Obj([(innerKey, v)]);
    var outer := Obj([(outerKey, inner)]);
    var keys := [outerKey, innerKey];
    SplitCons(outerKey, innerKey);
    SplitDotFree(innerKey);
    assert Split(outerKey + "." + innerKey) == keys;
    assert Step(outer, outerKey) == Ok(inner);
    assert Step(inner, innerKey) == Ok(v);
    assert Walk(outer, keys) == Walk(inner, keys[1..]);
    assert Walk(inner, keys[1..]) == Walk(v, keys[2..]);
  }
}
