/**
  The "Add New Widget" form: four pieces of component state (title, type,
  endpoint, and whether the test request is switched on) changed by the
  input handlers and by the create button.
 */
module WidgetBuilder {
  import opened JsString
  import opened JsValue
  import opened WidgetTypes
  import WidgetQuery

  /** The refresh interval, in seconds, every widget is created with. */
  const DefaultRefreshInterval: int := 60

  /**
    The widget a create with these inputs produces: none when the title is
    blank after trimming, otherwise one with the untrimmed title, the chosen
    type and endpoint, a 60-second refresh and no field mappings yet.
   */
  function Draft(title: string, widgetType: WidgetType, endpoint: string, id: string, createdAt: int): (w: Option<Widget>)
    ensures w.None? <==> AllWhitespace(title)
    ensures w.Some? ==>
      w.value.id == id && w.value.createdAt == createdAt &&
      w.value.widgetType == widgetType && w.value.displayConfig.title == title &&
      w.value.apiConfig.endpoint == endpoint && w.value.fieldMappings == []
  {
    if Trim(title) == "" then None
    else Some(Widget(id, widgetType, ApiConfig(endpoint, DefaultRefreshInterval, None),
                     [], DisplayConfig(title, None), createdAt))
  }

  /**
    A freshly created widget polls once a minute, and it fetches only when an
    endpoint was entered: the form does not insist on one.
   */
  lemma DraftQuery(title: string, widgetType: WidgetType, endpoint: string, id: string, createdAt: int)
    requires Draft(title, widgetType, endpoint, id, createdAt).Some?
    ensures var q := WidgetQuery.Options(Draft(title, widgetType, endpoint, id, createdAt).value);
      q.refetchInterval == 60000 && (q.enabled <==> endpoint != "") && q.fetchEndpoint == endpoint
  {
  }

  /** The state of the dashboard store: a record holding only an empty `widgets` list. */
  function StoreState(): (s: Json)
    ensures IsContainer(s) && Has(s, "widgets")
  {
    Obj([("widgets", Arr([]))])
  }

  /** The form's `addWidget` selector finds nothing in the store: it reads `undefined`. */
  lemma AddWidgetUndefined()
    ensures !Has(StoreState(), "addWidget") && Get(StoreState(), "addWidget") == Undef
  {
    assert StoreState().fields[0].0 != "addWidget";
  }

  class Form {
    var title: string
    var widgetType: WidgetType
    var endpoint: string
    var testApi: bool

    /** The test request is only ever switched on for a non-empty endpoint. */
    ghost predicate Valid()
      reads this
    {
      testApi ==> endpoint != ""
    }

    /** The form opens empty, on the card type, with the test request off. */
    constructor ()
      ensures title == "" && widgetType == Card && endpoint == "" && !testApi
      ensures Valid()
    {
      title := "";
      widgetType := Card;
      endpoint := "";
      testApi := false;
    }

    /** Typing in the title field. */
    method EditTitle(text: string)
      requires Valid()
      modifies this
      ensures title == text
      ensures widgetType == old(widgetType) && endpoint == old(endpoint) && testApi == old(testApi)
      ensures Valid()
    {
      title := text;
    }

    /** One of the three type buttons. */
    method ChooseType(t: WidgetType)
      requires Valid()
      modifies this
      ensures widgetType == t
      ensures title == old(title) && endpoint == old(endpoint) && testApi == old(testApi)
      ensures Valid()
    {
      widgetType := t;
    }

    /** Typing in the endpoint field switches the test request off. */
    method EditEndpoint(text: string)
      requires Valid()
      modifies this
      ensures endpoint == text && !testApi
      ensures title == old(title) && widgetType == old(widgetType)
      ensures Valid()
    {
      endpoint := text;
      testApi := false;
    }

    /** The "Test API" button, disabled (so without effect) while the endpoint is empty. */
    method ClickTestApi()
      requires Valid()
      modifies this
      ensures testApi <==> endpoint != ""
      ensures title == old(title) && widgetType == old(widgetType) && endpoint == old(endpoint)
      ensures Valid()
    {
      if endpoint != "" {
        testApi := true;
      }
    }

    /**
      The create button as the component is written: past the blank-title
      guard it calls `addWidget`, which is `undefined`, so it throws a
      TypeError before the form is reset, and no widget is ever created.
     */
    method CreateAsWritten() returns (r: Result<Option<Widget>>)
      requires Valid()
      ensures r.Throw? <==> !AllWhitespace(title)
      ensures r.Throw? ==> r.exception == TypeError
      ensures r.Ok? ==> r.value == None
    {
      if Trim(title) == "" {
        return Ok(None);
      }
      var addWidget := Get(StoreState(), "addWidget");
      AddWidgetUndefined();
      // Calling `undefined` throws; the resets below the call never run.
      assert addWidget == Undef;
      r := Throw(TypeError);
    }

    /**
      The create button as intended: a blank title changes nothing; otherwise
      the widget is handed over and the title and type are reset, the
      endpoint and the test switch are kept.
     */
    method Create(id: string, createdAt: int) returns (w: Option<Widget>)
      requires Valid()
      modifies this
      ensures w == Draft(old(title), old(widgetType), old(endpoint), id, createdAt)
      ensures w.None? ==> title == old(title) && widgetType == old(widgetType)
      ensures w.Some? ==> title == "" && widgetType == Card
      ensures endpoint == old(endpoint) && testApi == old(testApi)
      ensures Valid()
    {
      w := Draft(title, widgetType, endpoint, id, createdAt);
      if w.Some? {
        title := "";
        widgetType := Card;
      }
    }
  }
}
