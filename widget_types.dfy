/** The widget configuration records: what a widget shows, where its data comes from, which fields it picks. */
module WidgetTypes {
  import opened JsString

  /** The three kinds of widget. */
  datatype WidgetType = Card | Table | Chart

  /** The optional display format of a field. */
  datatype Format = Currency | Percentage | Number

  /** Where the data comes from; `refreshInterval` is in seconds. */
  datatype ApiConfig = ApiConfig(endpoint: string, refreshInterval: int, params: Option<map<string, string>>)

  /** A display label and the dotted path of the value it shows. */
  datatype FieldMapping = FieldMapping(labelText: string, jsonPath: string, format: Option<Format>)

  datatype DisplayConfig = DisplayConfig(title: string, description: Option<string>)

  /** A configured widget; `fieldMappings` is ordered and its order is the display order. */
  datatype Widget = Widget(
    id: string,
    widgetType: WidgetType,
    apiConfig: ApiConfig,
    fieldMappings: seq<FieldMapping>,
    displayConfig: DisplayConfig,
    createdAt: int)

  /** The string literal a widget type is written as. */
  function TypeName(t: WidgetType): (s: string)
    ensures ParseType(s) == Some(t)
  {
    match t
    case Card => "card"
    case Table => "table"
    case Chart => "chart"
  }

  /** The widget type a string literal denotes: exactly "card", "table" and "chart" do. */
  function ParseType(s: string): (r: Option<WidgetType>)
    ensures r.Some? <==> s == "card" || s == "table" || s == "chart"
  {
    if s == "card" then Some(Card)
    else if s == "table" then Some(Table)
    else if s == "chart" then Some(Chart)
    else None
  }

  /** A type read back from a string is written as that string. */
  lemma ParseTypeName(s: string)
    requires ParseType(s).Some?
    ensures TypeName(ParseType(s).value) == s
  {
  }
}
