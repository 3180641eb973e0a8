/** The request and response vocabulary the handlers share: JavaScript values as parsed from
    a JSON body, the `{success, data?, error?}` envelope of virtue-scroll-api/src/types.ts,
    and the two response helpers `jsonResponse` / `errorResponse` of the controllers.
 */
module Http {
  import opened Wrappers
  import opened Cors

  /** A JSON value. `undefined` (an absent property) is represented by `Option.None`. */
  datatype JsVal =
    | JNull
    | JBool(b: bool)
    | JNum(n: int)
    | JStr(s: string)
    | JArray(items: seq<JsVal>)
    | JObject(fields: map<string, JsVal>)

  /** JavaScript truthiness of a possibly-undefined value. */
  predicate Truthy(v: Option<JsVal>) {
    match v
    case None => false
    case Some(JNull) => false
    case Some(JBool(b)) => b
    case Some(JNum(n)) => n != 0
    case Some(JStr(s)) => s != []
    case Some(_) => true
  }

  /** Reading property `key` of a non-null value: an object's own field, `undefined` otherwise
      (strings, numbers, booleans and arrays have no property with the names read here). */
  function Prop(v: JsVal, key: string): (r: Option<JsVal>)
    requires !v.JNull?
    ensures r.Some? ==> v.JObject? && key in v.fields && r.value == v.fields[key]
    ensures v.JObject? && key in v.fields ==> r.Some?
  {
    if v.JObject? && key in v.fields then Some(v.fields[key]) else None
  }

  /** The settled result of `await request.json()`: a syntax error, or the parsed value. */
  datatype RequestBody = Unparsable | Parsed(json: JsVal)

  /** A database row, as the driver returns it. */
  type Row = map<string, JsVal>

  datatype Data = Rows(rows: seq<Row>) | Record(row: Row)

  /** `ApiResponse<T>`: `{ success, data?, error? }`. */
  datatype Envelope = Envelope(success: bool, data: Option<Data>, error: Option<string>)

  datatype Body = NoBody | Text(text: string) | Json(envelope: Envelope)

  /** A response: status, `Content-Type` (None when the runtime picks it), the CORS headers
      when they are attached, and the body. */
  datatype Response = Response(status: int, contentType: Option<string>, cors: Option<CorsHeaders>, body: Body)

  const JsonType := "application/json"

  /** Every JSON response carries `Content-Type: application/json` and the CORS headers. */
  predicate IsJsonWithCors(r: Response, cors: CorsHeaders) {
    r.contentType == Some(JsonType) && r.cors == Some(cors) && r.body.Json?
  }

  /** A failure envelope with the given message and no data. */
  predicate IsFailure(r: Response, error: string) {
    r.body == Json(Envelope(false, None, Some(error)))
  }

  /** A success envelope with the given data. */
  predicate IsSuccess(r: Response, data: Option<Data>) {
    r.body == Json(Envelope(true, data, None))
  }

  /** The controllers' `jsonResponse(data, status = 200)`. */
  function JsonResponse(cors: CorsHeaders, envelope: Envelope, status: int := 200): (r: Response)
    ensures r.status == status && IsJsonWithCors(r, cors) && r.body.envelope == envelope
  {
    Response(status, Some(JsonType), Some(cors), Json(envelope))
  }

  /** The controllers' `errorResponse(error, status = 500)`. */
  function ErrorResponse(cors: CorsHeaders, error: string, status: int := 500): (r: Response)
    ensures r.status == status && IsJsonWithCors(r, cors) && IsFailure(r, error)
  {
    JsonResponse(cors, Envelope(false, None, Some(error)), status)
  }

  /** `{ success: true }` or `{ success: true, data }` with status 200. */
  function SuccessResponse(cors: CorsHeaders, data: Option<Data>): (r: Response)
    ensures r.status == 200 && IsJsonWithCors(r, cors) && IsSuccess(r, data)
  {
    JsonResponse(cors, Envelope(true, data, None))
  }

  /** The rows of a list query wrapped as `{ success: true, data }`, or the operation's fixed
      failure message with status 500. */
  function ListResponse(cors: CorsHeaders, rows: Outcome<seq<Row>>, failure: string): (r: Response)
    ensures IsJsonWithCors(r, cors)
    ensures rows.Done? ==> r.status == 200 && IsSuccess(r, Some(Rows(rows.value)))
    ensures rows.Threw? ==> r.status == 500 && IsFailure(r, failure)
  {
    match rows
    case Done(rs) => SuccessResponse(cors, Some(Rows(rs)))
    case Threw => ErrorResponse(cors, failure)
  }
}
