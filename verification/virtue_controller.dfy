/** The virtue (post) controller (virtue-scroll-api/src/controllers/virtueController.ts).

    The service is a parameter: its list queries are the rows they return or a thrown
    error, and `createVirtue` either completes or throws. Every response is JSON and carries
    the controller's CORS headers.
 */
module VirtueController {
  import opened Wrappers
  import opened Text
  import opened Cors
  import opened Http

  datatype VirtueService = VirtueService(
    getAllVirtues: Outcome<seq<Row>>,
    getUserVirtues: string -> Outcome<seq<Row>>,
    createVirtue: (string, JsVal) -> Effect)

  const FetchVirtuesFailed := "Failed to fetch virtues"
  const FetchUserVirtuesFailed := "Failed to fetch user virtues"
  const CreateVirtueFailed := "Failed to create virtue"
  const ContentRequired := "Content and userId are required"

  /** `getVirtues`: the service's rows, unchanged, as `data`. */
  function GetVirtues(cors: CorsHeaders, svc: VirtueService): (r: Response)
    ensures IsJsonWithCors(r, cors)
    ensures svc.getAllVirtues.Done? ==> r.status == 200 && IsSuccess(r, Some(Rows(svc.getAllVirtues.value)))
    ensures svc.getAllVirtues.Threw? ==> r.status == 500 && IsFailure(r, FetchVirtuesFailed)
  {
    ListResponse(cors, svc.getAllVirtues, FetchVirtuesFailed)
  }

  /** `getUserVirtues(username)`: the rows the service returns for that username. */
  function GetUserVirtues(cors: CorsHeaders, username: string, svc: VirtueService): (r: Response)
    ensures IsJsonWithCors(r, cors)
    ensures svc.getUserVirtues(username).Done? ==>
      r.status == 200 && IsSuccess(r, Some(Rows(svc.getUserVirtues(username).value)))
    ensures svc.getUserVirtues(username).Threw? ==> r.status == 500 && IsFailure(r, FetchUserVirtuesFailed)
  {
    ListResponse(cors, svc.getUserVirtues(username), FetchUserVirtuesFailed)
  }

  /** What the guard of `createVirtue` decides: call the service with these arguments, or
      answer at once with this status and message. */
  datatype NewVirtue = Accept(content: string, userId: JsVal) | Refuse(status: int, message: string)

  /** `body.content?.trim()` is falsy: content absent, null, or a blank string. */
  predicate ContentMissing(body: JsVal)
    requires !body.JNull?
  {
    match Prop(body, "content")
    case None => true
    case Some(JNull) => true
    case Some(JStr(s)) => IsBlank(s)
    case Some(_) => false
  }

  /** `body.content?.trim()` throws: content is present but is not a string. */
  predicate ContentNotText(body: JsVal)
    requires !body.JNull?
  {
    Prop(body, "content").Some? && !Prop(body, "content").value.JNull? && !Prop(body, "content").value.JStr?
  }

  /** The parse and guard of `createVirtue`. A body that fails to parse, a `null` body and a
      non-string content throw, which the `catch` turns into a 500. */
  function CheckNewVirtue(body: RequestBody): (c: NewVirtue)
    ensures c.Refuse? ==> c.status == 400 || (c.status == 500 && c.message == CreateVirtueFailed)
    ensures c.Refuse? && c.status == 400 ==> c.message == ContentRequired
    ensures (c.Refuse? && c.status == 400) <==>
      body.Parsed? && !body.json.JNull? && !ContentNotText(body.json)
      && (ContentMissing(body.json) || !Truthy(Prop(body.json, "userId")))
    ensures c.Accept? ==>
      && body.Parsed? && !body.json.JNull?
      && Prop(body.json, "content").Some? && Prop(body.json, "content").value.JStr?
      && var s := Prop(body.json, "content").value.s;
         !IsBlank(s) && c.content == Trim(s)
    ensures c.Accept? ==> Truthy(Prop(body.json, "userId")) && Prop(body.json, "userId") == Some(c.userId)
    ensures c.Accept? <==>
      && body.Parsed? && !body.json.JNull?
      && Prop(body.json, "content").Some? && Prop(body.json, "content").value.JStr?
      && !IsBlank(Prop(body.json, "content").value.s)
      && Truthy(Prop(body.json, "userId"))
  {
    match body
    case Unparsable => Refuse(500, CreateVirtueFailed)
    case Parsed(v) =>
      if v.JNull? then Refuse(500, CreateVirtueFailed)
      else
        match Prop(v, "content")
        case None => Refuse(400, ContentRequired)
        case Some(JNull) => Refuse(400, ContentRequired)
        case Some(JStr(s)) =>
          var content := Trim(s);
          if content == [] then Refuse(400, ContentRequired)
          else
            var userId := Prop(v, "userId");
            if !Truthy(userId) then Refuse(400, ContentRequired)
            else Accept(content, userId.value)
        case Some(_) => Refuse(500, CreateVirtueFailed)
  }

  /** `createVirtue`: the service receives the trimmed content; success is `{ success: true }`
      with no data. */
  function CreateVirtue(cors: CorsHeaders, body: RequestBody, svc: VirtueService): (r: Response)
    ensures IsJsonWithCors(r, cors)
    ensures CheckNewVirtue(body).Refuse? ==>
      r.status == CheckNewVirtue(body).status && IsFailure(r, CheckNewVirtue(body).message)
    ensures r.status == 200 <==>
      CheckNewVirtue(body).Accept?
      && svc.createVirtue(CheckNewVirtue(body).content, CheckNewVirtue(body).userId) == Completed
    ensures r.status == 200 ==> IsSuccess(r, None)
    ensures r.status != 200 ==> !r.body.envelope.success
    ensures (CheckNewVirtue(body).Accept?
             && svc.createVirtue(CheckNewVirtue(body).content, CheckNewVirtue(body).userId) == Failed) ==>
      r.status == 500 && IsFailure(r, CreateVirtueFailed)
  {
    match CheckNewVirtue(body)
    case Refuse(status, message) => ErrorResponse(cors, message, status)
    case Accept(content, userId) =>
      match svc.createVirtue(content, userId)
      case Completed => SuccessResponse(cors, None)
      case Failed => ErrorResponse(cors, CreateVirtueFailed)
  }

  /** A refused body never reaches the service: any two services give the same response. */
  lemma RefusalSkipsService(cors: CorsHeaders, body: RequestBody, s1: VirtueService, s2: VirtueService)
    requires CheckNewVirtue(body).Refuse?
    ensures CreateVirtue(cors, body, s1) == CreateVirtue(cors, body, s2)
  {
  }

  /** Whitespace around accepted content is not stored. */
  lemma StoredContentIsTrimmed(body: RequestBody)
    requires CheckNewVirtue(body).Accept?
    ensures var c := CheckNewVirtue(body).content;
      c != [] && !IsSpace(c[0]) && !IsSpace(c[|c| - 1])
  {
    var s := Prop(body.json, "content").value.s;
    var t := Trim(s);
    assert CheckNewVirtue(body).content == t;
  }
}
