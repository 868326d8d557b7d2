/**
  `useWidgetData(widget)`: the options a widget's data query is created with.
  Running the query (polling, retries, caching) belongs to the query library.
 */
module WidgetQuery {
  import opened JsValue
  import opened WidgetTypes

  const QueryTag := "widget-data"

  /** The options handed to the query library. */
  datatype QueryOptions = QueryOptions(
    queryKey: seq<string>,
    fetchEndpoint: string,    // the argument `fetchApi` is called with
    refetchInterval: int,     // milliseconds
    enabled: bool,
    retry: nat)

  /** The query options derived from a widget. */
  function Options(w: Widget): (q: QueryOptions)
    ensures q.enabled <==> w.apiConfig.endpoint != ""
    ensures q.refetchInterval % 1000 == 0 && q.refetchInterval / 1000 == w.apiConfig.refreshInterval
    ensures q.fetchEndpoint == w.apiConfig.endpoint && q.retry == 1
    ensures |q.queryKey| == 3 && q.queryKey[0] == QueryTag
  {
    QueryOptions(
      [QueryTag, w.id, w.apiConfig.endpoint],
      w.apiConfig.endpoint,
      w.apiConfig.refreshInterval * 1000,
      Truthy(Str(w.apiConfig.endpoint)),
      1)
  }

  /** Two widgets share a query key exactly when they share id and endpoint. */
  lemma KeyIdentifiesWidgetEndpoint(w1: Widget, w2: Widget)
    ensures Options(w1).queryKey == Options(w2).queryKey
        <==> w1.id == w2.id && w1.apiConfig.endpoint == w2.apiConfig.endpoint
  {
    if Options(w1).queryKey == Options(w2).queryKey {
      assert Options(w1).queryKey[1] == Options(w2).queryKey[1];
      assert Options(w1).queryKey[2] == Options(w2).queryKey[2];
    }
  }

  /** Queries cached under the same key fetch the same endpoint. */
  lemma SameKeySameFetch(w1: Widget, w2: Widget)
    requires Options(w1).queryKey == Options(w2).queryKey
    ensures Options(w1).fetchEndpoint == Options(w2).fetchEndpoint
  {
    KeyIdentifiesWidgetEndpoint(w1, w2);
  }
}
