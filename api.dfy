/**
  `fetchApi(endpoint)` without the network: building the request URL (Finnhub
  token injection), classifying the response status, and rewriting an array of
  primitives into an array of `{ value }` objects. The configured key and the
  server's answer are parameters.
 */
module Api {
  import opened JsString
  import opened JsValue

  const FinnhubMarker := "finnhub.io/api"
  const TokenParam := "token="
  const MissingKeyMessage := "Missing Finnhub API key"
  const RateLimitMessage := "RATE_LIMIT_EXCEEDED"

  /** What the server answered for a URL: its status code and its parsed JSON body. */
  datatype Response = Response(status: nat, body: Json)

  /** `!FINNHUB_KEY` is false: the key is set and non-empty. */
  predicate KeyPresent(key: Option<string>)
  {
    key.Some? && Truthy(Str(key.value))
  }

  /** The endpoint is a Finnhub API URL that does not carry a token yet. */
  predicate NeedsToken(endpoint: string)
  {
    Contains(endpoint, FinnhubMarker) && !Contains(endpoint, TokenParam)
  }

  /** The URL `fetchApi` requests for `endpoint`, or the error it throws first. */
  function PrepareUrl(endpoint: string, key: Option<string>): (r: Result<string>)
    ensures r.Ok? ==> endpoint <= r.value
    ensures r.Ok? && Contains(endpoint, FinnhubMarker) ==> Contains(r.value, TokenParam)
    ensures r.Throw? <==> NeedsToken(endpoint) && !KeyPresent(key)
    ensures r.Throw? ==> r.exception == Error(MissingKeyMessage)
    ensures r.Ok? && !NeedsToken(endpoint) ==> r.value == endpoint
    ensures r.Ok? && NeedsToken(endpoint) ==>
      KeyPresent(key) && |r.value| == |endpoint| + 1 + |TokenParam| + |key.value| &&
      r.value[|endpoint|] == (if Contains(endpoint, "?") then '&' else '?') &&
      r.value[|endpoint| + 1..] == TokenParam + key.value
  {
    if NeedsToken(endpoint) then
      if !KeyPresent(key) then Throw(Error(MissingKeyMessage))
      else
        var url := endpoint + (if Contains(endpoint, "?") then "&" else "?") + TokenParam + key.value;
        assert Contains(url, TokenParam) by {
          ContainsMiddle(endpoint + (if Contains(endpoint, "?") then "&" else "?"), TokenParam, key.value);
        }
        Ok(url)
    else Ok(endpoint)
  }

  /** The error thrown for a response status, if any: 429 first, then any status outside 200-299. */
  function StatusError(status: nat): (r: Option<Exception>)
    ensures r.None? <==> 200 <= status <= 299
    ensures status == 429 ==> r == Some(Error(RateLimitMessage))
    ensures status != 429 && r.Some? ==> r == Some(Error("API Error: " + NatToString(status)))
  {
    if status == 429 then Some(Error(RateLimitMessage))
    else if !(200 <= status <= 299) then Some(Error("API Error: " + NatToString(status)))
    else None
  }

  /** An array whose first element is not of type "object" (an empty array included). */
  predicate PrimitiveArray(body: Json)
  {
    body.Arr? && (body.items == [] || !IsObjectType(body.items[0]))
  }

  /** `data.map((item) => ({ value: item }))` for primitive arrays; every other body unchanged. */
  function Normalize(body: Json): (r: Json)
    ensures PrimitiveArray(body) ==>
      r.Arr? && |r.items| == |body.items| &&
      forall i :: 0 <= i < |r.items| ==> r.items[i] == Obj([("value", body.items[i])])
    ensures !PrimitiveArray(body) ==> r == body
    ensures r.Arr? && r.items != [] ==> IsObjectType(r.items[0])
  {
    if PrimitiveArray(body) then
      Arr(seq(|body.items|, i requires 0 <= i < |body.items| => Obj([("value", body.items[i])])))
    else body
  }

  /**
    `fetchApi(endpoint)`, where `server` stands for the network: it maps the
    requested URL to the response that `fetch` and `response.json()` produce.
   */
  function FetchApi(endpoint: string, key: Option<string>, server: string -> Response): (r: Result<Json>)
    ensures r.Ok? <==> PrepareUrl(endpoint, key).Ok? && 200 <= server(PrepareUrl(endpoint, key).value).status <= 299
    ensures r.Ok? ==> r.value == Normalize(server(PrepareUrl(endpoint, key).value).body)
    ensures r.Throw? ==>
      r.exception == (if PrepareUrl(endpoint, key).Throw? then Error(MissingKeyMessage)
                      else StatusError(server(PrepareUrl(endpoint, key).value).status).value)
  {
    match PrepareUrl(endpoint, key)
    case Throw(e) => Throw(e)
    case Ok(url) =>
      var response := server(url);
      match StatusError(response.status)
      case Some(e) => Throw(e)
      case None => Ok(Normalize(response.body))
  }

  // ---------------------------------------------------------------------------
  // Properties

  /** An endpoint that is not a Finnhub API URL, or already has a token, is requested as is. */
  lemma UnchangedEndpoint(endpoint: string, key: Option<string>)
    requires !Contains(endpoint, FinnhubMarker) || Contains(endpoint, TokenParam)
    ensures PrepareUrl(endpoint, key) == Ok(endpoint)
  {
  }

  /** Otherwise the token is appended after "&" when a query string exists, after "?" if not. */
  lemma TokenAppended(endpoint: string, key: string)
    requires NeedsToken(endpoint) && key != ""
    ensures PrepareUrl(endpoint, Some(key))
         == Ok(endpoint + (if Contains(endpoint, "?") then "&" else "?") + "token=" + key)
  {
  }

  /** Preparing a prepared URL changes nothing. */
  lemma {:induction false} PrepareIdempotent(endpoint: string, key: Option<string>)
    requires PrepareUrl(endpoint, key).Ok?
    ensures PrepareUrl(PrepareUrl(endpoint, key).value, key) == PrepareUrl(endpoint, key)
  {
    var url := PrepareUrl(endpoint, key).value;
    if Contains(endpoint, FinnhubMarker) {
      assert url == endpoint + url[|endpoint|..];
      ContainsExtend(endpoint, FinnhubMarker, url[|endpoint|..]);
      assert Contains(url, TokenParam);
    }
  }

  /** Normalizing a normalized body changes nothing. */
  lemma NormalizeIdempotent(body: Json)
    ensures Normalize(Normalize(body)) == Normalize(body)
  {
  }

  /** A 429 is reported as the rate-limit error, never as the generic API error. */
  lemma RateLimitFirst(endpoint: string, key: Option<string>, server: string -> Response)
    requires PrepareUrl(endpoint, key).Ok?
    requires server(PrepareUrl(endpoint, key).value).status == 429
    ensures FetchApi(endpoint, key, server) == Throw(Error(RateLimitMessage))
  {
  }
}
