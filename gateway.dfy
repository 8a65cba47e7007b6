/** `callApi` and the reading of the server's JSON answers: a `fetch` of the URL and
    `res.json()`, with every failure of either collapsed into one error. */
module Gateway {
  import opened JsText

  /** A parsed JSON value. JSON numbers are finite. */
  datatype Json =
    | JNull
    | JBool(b: bool)
    | JNumber(n: real)
    | JString(s: string)
    | JArray(items: seq<Json>)
    | JObject(fields: map<string, Json>)

  /** The body of an HTTP answer: JSON text, or text that is not JSON. */
  datatype Body = NotJson | Parsed(json: Json)

  /** What one `fetch` gives: no answer at all (DNS, refused connection, reset), or an
      answer with its HTTP status code and body. */
  datatype Fetched = NetworkError | Response(httpStatus: int, body: Body)

  /** `callApi(url)`: the parsed body, or the single `API call failed` error. */
  datatype ApiResult = ApiFailed | Data(json: Json)

  /** `fetch` rejects only when there is no answer, and `res.json()` only when the
      body is not JSON; both become `API call failed`. The HTTP status is never looked
      at, so a 4xx or 5xx answer with a JSON body is data like any other. */
  function CallApi(f: Fetched): (r: ApiResult)
    ensures r == ApiFailed <==> f == NetworkError || f.body == NotJson
    ensures r.Data? ==> f.Response? && f.body == Parsed(r.json)
  {
    match f
    case NetworkError => ApiFailed
    case Response(_, NotJson) => ApiFailed
    case Response(_, Parsed(json)) => Data(json)
  }

  /** Two answers that differ only in their HTTP status give the same result. */
  lemma StatusIgnored(code1: int, code2: int, body: Body)
    ensures CallApi(Response(code1, body)) == CallApi(Response(code2, body))
  {
  }

  /** `data.<key>` on a value that is not `null`: an object's own field, and
      `undefined` (None) for anything else. */
  function Field(data: Json, key: string): (r: Option<Json>)
    requires data != JNull
    ensures r.Some? <==> data.JObject? && key in data.fields
  {
    if data.JObject? && key in data.fields then Some(data.fields[key]) else None
  }

  /** `data.status === 'success'`. */
  predicate IsSuccess(data: Json)
    requires data != JNull
  {
    Field(data, "status") == Some(JString("success"))
  }

  /** `typeof data.total === 'number'`, with that number. */
  function Total(data: Json): (r: Option<real>)
    requires data != JNull
    ensures r.Some? <==> data.JObject? && "total" in data.fields && data.fields["total"].JNumber?
    ensures r.Some? ==> data.fields["total"] == JNumber(r.value)
  {
    match Field(data, "total")
    case Some(JNumber(n)) => Some(n)
    case _ => None
  }

  /** JavaScript truthiness of a value that may be `undefined`. */
  predicate Truthy(v: Option<Json>) {
    match v
    case None => false
    case Some(JNull) => false
    case Some(JBool(b)) => b
    case Some(JNumber(n)) => n != 0.0
    case Some(JString(s)) => s != ""
    case Some(_) => true
  }

  /** `data.message || 'Unknown error'`: what the bot shows when the server says no. */
  function MessageOrUnknown(data: Json): (m: Json)
    requires data != JNull
    ensures Truthy(Some(m))
    ensures Truthy(Field(data, "message")) ==> Field(data, "message") == Some(m)
    ensures !Truthy(Field(data, "message")) ==> m == JString("Unknown error")
  {
    var message := Field(data, "message");
    if Truthy(message) then message.value else JString("Unknown error")
  }
}
