/** The user controller (virtue-scroll-api/src/controllers/userController.ts).

    The service is a parameter: `createUser` completes or throws, and `getUserById` returns
    the stored row, nothing, or throws.
 */
module UserController {
  import opened Wrappers
  import opened Text
  import opened Cors
  import opened Http

  datatype UserService = UserService(
    createUser: JsVal -> Effect,
    getUserById: string -> Outcome<Option<Row>>)

  const InvalidUserData := "Invalid user data"
  const CreateUserFailed := "Failed to create user"
  const UserNotFound := "User not found"
  const FetchUserFailed := "Failed to fetch user"

  /** `user[key]?.trim()` as a truth value: `Some(false)` for an absent, null or blank string
      field, `Some(true)` for a string with a non-space character, and `None` when the field
      holds something without a `trim` method, which throws. */
  function TrimmedTruthy(user: JsVal, key: string): (t: Option<bool>)
    requires !user.JNull?
    ensures t.None? <==> Prop(user, key).Some? && !Prop(user, key).value.JNull? && !Prop(user, key).value.JStr?
    ensures t == Some(true) <==> Prop(user, key).Some? && Prop(user, key).value.JStr? && !IsBlank(Prop(user, key).value.s)
  {
    match Prop(user, key)
    case None => Some(false)
    case Some(JNull) => Some(false)
    case Some(JStr(s)) => Some(Trim(s) != [])
    case Some(_) => None
  }

  /** A field the check accepts: a string that is not blank. */
  predicate FilledText(user: JsVal, key: string)
    requires !user.JNull?
  {
    Prop(user, key).Some? && Prop(user, key).value.JStr? && !IsBlank(Prop(user, key).value.s)
  }

  /** A field the check can read without throwing: absent, null or a string. */
  predicate TextOrAbsent(user: JsVal, key: string)
    requires !user.JNull?
  {
    Prop(user, key).None? || Prop(user, key).value.JNull? || Prop(user, key).value.JStr?
  }

  /** `validateUserInput`: the `&&` chain stops at the first falsy operand, so a later field
      that would throw is never read. `None` is a thrown `TypeError`, which includes reading
      a field of a `null` body. */
  function ValidateUserInput(user: JsVal): (ok: Option<bool>)
    ensures ok == Some(true) <==>
      && !user.JNull?
      && FilledText(user, "username") && FilledText(user, "display_name") && FilledText(user, "email")
      && Truthy(Prop(user, "id"))
    ensures (!user.JNull? && TextOrAbsent(user, "username") && TextOrAbsent(user, "display_name")
             && TextOrAbsent(user, "email")) ==> ok.Some?
    ensures user.JNull? ==> ok.None?
    ensures !user.JNull? ==>
      (ok.None? <==>
        || !TextOrAbsent(user, "username")
        || (FilledText(user, "username") && !TextOrAbsent(user, "display_name"))
        || (FilledText(user, "username") && FilledText(user, "display_name") && !TextOrAbsent(user, "email")))
  {
    if user.JNull? then None
    else
      match TrimmedTruthy(user, "username")
      case None => None
      case Some(false) => Some(false)
      case Some(true) =>
        match TrimmedTruthy(user, "display_name")
        case None => None
        case Some(false) => Some(false)
        case Some(true) =>
          match TrimmedTruthy(user, "email")
          case None => None
          case Some(false) => Some(false)
          case Some(true) => Some(Truthy(Prop(user, "id")))
  }

  /** `createUser`: the whole body is handed to the service once it passes the check. */
  function CreateUser(cors: CorsHeaders, body: RequestBody, svc: UserService): (r: Response)
    ensures IsJsonWithCors(r, cors)
    ensures r.status == 200 <==>
      body.Parsed? && ValidateUserInput(body.json) == Some(true) && svc.createUser(body.json) == Completed
    ensures r.status == 200 ==> IsSuccess(r, None)
    ensures r.status == 400 <==> body.Parsed? && ValidateUserInput(body.json) == Some(false)
    ensures r.status == 400 ==> IsFailure(r, InvalidUserData)
    ensures r.status != 200 && r.status != 400 ==> r.status == 500 && IsFailure(r, CreateUserFailed)
  {
    match body
    case Unparsable => ErrorResponse(cors, CreateUserFailed)
    case Parsed(user) =>
      match ValidateUserInput(user)
      case None => ErrorResponse(cors, CreateUserFailed)
      case Some(false) => ErrorResponse(cors, InvalidUserData, 400)
      case Some(true) =>
        match svc.createUser(user)
        case Completed => SuccessResponse(cors, None)
        case Failed => ErrorResponse(cors, CreateUserFailed)
  }

  /** `getUser(id)`: the stored row as `data`, 404 when there is none, 500 when the lookup
      throws. */
  function GetUser(cors: CorsHeaders, id: string, svc: UserService): (r: Response)
    ensures IsJsonWithCors(r, cors)
    ensures svc.getUserById(id) == Done(None) <==> r.status == 404
    ensures r.status == 404 ==> IsFailure(r, UserNotFound)
    ensures svc.getUserById(id).Threw? <==> r.status == 500
    ensures r.status == 500 ==> IsFailure(r, FetchUserFailed)
    ensures svc.getUserById(id).Done? && svc.getUserById(id).value.Some? ==>
      r.status == 200 && IsSuccess(r, Some(Record(svc.getUserById(id).value.value)))
  {
    match svc.getUserById(id)
    case Threw => ErrorResponse(cors, FetchUserFailed)
    case Done(None) => ErrorResponse(cors, UserNotFound, 404)
    case Done(Some(user)) => SuccessResponse(cors, Some(Record(user)))
  }

  /** A rejected body never reaches the service. */
  lemma InvalidBodySkipsService(cors: CorsHeaders, body: RequestBody, s1: UserService, s2: UserService)
    requires !(body.Parsed? && ValidateUserInput(body.json) == Some(true))
    ensures CreateUser(cors, body, s1) == CreateUser(cors, body, s2)
  {
  }

  /** Short-circuit: a blank username decides the answer whatever the later fields hold,
      even fields that would throw if they were read. */
  lemma BlankUsernameDecides(user: JsVal)
    requires !user.JNull? && Prop(user, "username").Some? && Prop(user, "username").value.JStr?
    requires IsBlank(Prop(user, "username").value.s)
    ensures ValidateUserInput(user) == Some(false)
  {
  }
}
