/** The Worker entry point (virtue-scroll-api/src/index.ts): per request it computes the CORS
    headers, answers preflight requests at once, and otherwise builds the route table and
    hands the request to the router. The handlers query the D1 database directly; the
    database is a parameter whose queries return rows, a `success` flag, or throw.
 */
module App {
  import opened Wrappers
  import opened Text
  import opened Pattern
  import opened Cors
  import opened Http
  import opened Router

  /** The parts of a request the Worker reads: method, URL pathname, `Origin`, and the
      settled `request.json()`. */
  datatype Request = Request(verb: string, path: string, origin: Option<string>, body: RequestBody)

  /** The bound values of `INSERT INTO virtues (id, content, user_id)`. */
  datatype VirtueInsert = VirtueInsert(id: string, content: JsVal, userId: JsVal)

  /** The bound values of `INSERT INTO users (id, username, display_name, avatar_url, email,
      created_at)`. */
  datatype UserInsert = UserInsert(
    id: JsVal, username: JsVal, displayName: JsVal, avatarUrl: JsVal, email: JsVal, createdAt: string)

  /** The four statements the handlers run. `latestVirtues` and `virtuesOf` are the `results`
      of `.all()`, the inserts are the `success` flag of `.run()`, `usersWithId` the rows
      of the lookup; `Threw` is a rejected promise. */
  datatype Database = Database(
    latestVirtues: Outcome<seq<Row>>,
    virtuesOf: string -> Outcome<seq<Row>>,
    insertVirtue: VirtueInsert -> Outcome<bool>,
    insertUser: UserInsert -> Outcome<bool>,
    usersWithId: string -> Outcome<seq<Row>>)

  /** The environment of one request: `ALLOWED_ORIGINS.origins`, the database, and the values
      `crypto.randomUUID()` and `new Date().toISOString()` yield during it. */
  datatype Env = Env(origins: seq<string>, db: Database, uuid: string, now: string)

  /** The six handlers, in the order index.ts registers them. */
  datatype Handler = ListVirtues | ListUserVirtues | AddVirtue | AddUser | FindUser | NotFoundJson

  /** The `/`-separated pieces of the registered path patterns. */
  const VirtuesPieces := ["", "api", "virtues"]
  const UserVirtuesPieces := ["", "api", "users", ":username", "virtues"]
  const UsersPieces := ["", "api", "users"]
  const UserPieces := ["", "api", "users", ":id"]

  /** `/api/virtues` */
  const VirtuesPath := Join(VirtuesPieces, '/')
  /** `/api/users/:username/virtues` */
  const UserVirtuesPattern := Join(UserVirtuesPieces, '/')
  /** `/api/users` */
  const UsersPath := Join(UsersPieces, '/')
  /** `/api/users/:id` */
  const UserPattern := Join(UserPieces, '/')
  const CatchAll := ".*"

  const FetchVirtuesFailed := "Failed to fetch virtues"
  const FetchUserVirtuesFailed := "Failed to fetch user virtues"
  const ContentRequired := "Content and userId are required"
  const CreateVirtueFailed := "Failed to create virtue"
  const UserFieldsRequired := "Username, display_name, and email are required"
  const CreateUserFailed := "Failed to create user"
  const FetchUserFailed := "Failed to fetch user"
  const NotFound := "Not Found"

  // ---------------------------------------------------------------------------------------
  // The registered patterns

  /** Joining regex-free pieces with `/` gives a regex-free string. */
  lemma {:induction false} JoinNoMeta(pieces: seq<string>)
    requires |pieces| > 0
    requires forall i, k :: 0 <= i < |pieces| && 0 <= k < |pieces[i]| ==> !IsRegexMeta(pieces[i][k])
    ensures forall k :: 0 <= k < |Join(pieces, '/')| ==> !IsRegexMeta(Join(pieces, '/')[k])
    decreases |pieces|
  {
    if |pieces| > 1 {
      JoinNoMeta(pieces[1..]);
      var rest := Join(pieces[1..], '/');
      var s := Join(pieces, '/');
      assert s == pieces[0] + ['/'] + rest;
      forall k | 0 <= k < |s| ensures !IsRegexMeta(s[k]) {
        if k < |pieces[0]| {
          assert s[k] == pieces[0][k];
        } else if k > |pieces[0]| {
          assert s[k] == rest[k - |pieces[0]| - 1];
        }
      }
    }
  }

  /** A pattern written as regex-free, `/`-free pieces whose later pieces are whole
      parameters or plain words is a plain pattern (and not the catch-all); its segments
      are read off the pieces. */
  lemma PatternOfPieces(pieces: seq<string>)
    requires |pieces| > 0
    requires forall i :: 0 <= i < |pieces| ==> '/' !in pieces[i]
    requires forall i, k :: 0 <= i < |pieces| && 0 <= k < |pieces[i]| ==> !IsRegexMeta(pieces[i][k])
    requires forall i :: 1 <= i < |pieces| ==> WholeParam(pieces[i])
    ensures IsPlainPattern(Join(pieces, '/')) && Join(pieces, '/') != CatchAll
    ensures Segments(Join(pieces, '/')) == [Literal(pieces[0])] + ParseAll(pieces[1..])
  {
    var p := Join(pieces, '/');
    SplitJoin(pieces, '/');
    JoinNoMeta(pieces);
    assert |p| > 0 ==> !IsRegexMeta(p[0]);
  }

  /** The path pieces `parts` fit the pattern pieces: same number, parameter pieces
      non-empty, every other piece equal. */
  predicate PiecesMatch(pieces: seq<string>, parts: seq<string>) {
    && |parts| == |pieces|
    && forall i :: 0 <= i < |pieces| ==>
         if i > 0 && IsParamPiece(pieces[i]) then parts[i] != [] else parts[i] == pieces[i]
  }

  /** The `i`-th segment of a pattern read off its pieces fits a path piece as `PiecesMatch`
      says. */
  lemma SegmentFits(pieces: seq<string>, part: string, i: nat)
    requires i < |pieces|
    ensures var segs := [Literal(pieces[0])] + ParseAll(pieces[1..]);
      SegmentMatches(segs[i], part)
      <==> if i > 0 && IsParamPiece(pieces[i]) then part != [] else part == pieces[i]
  {
    var segs := [Literal(pieces[0])] + ParseAll(pieces[1..]);
    if i > 0 {
      assert segs[i] == ParseAll(pieces[1..])[i - 1] == ParsePiece(pieces[i]);
    }
  }

  /** A pattern given by its pieces accepts exactly the paths whose pieces fit. */
  lemma AcceptsPieces(pieces: seq<string>, path: string)
    requires |pieces| > 0
    requires forall i :: 0 <= i < |pieces| ==> '/' !in pieces[i]
    requires forall i, k :: 0 <= i < |pieces| && 0 <= k < |pieces[i]| ==> !IsRegexMeta(pieces[i][k])
    requires forall i :: 1 <= i < |pieces| ==> WholeParam(pieces[i])
    ensures IsPlainPattern(Join(pieces, '/'))
    ensures Accepts(Join(pieces, '/'), path) <==> PiecesMatch(pieces, Split(path, '/'))
  {
    PatternOfPieces(pieces);
    var segs := [Literal(pieces[0])] + ParseAll(pieces[1..]);
    var parts := Split(path, '/');
    assert Accepts(Join(pieces, '/'), path) <==> SegmentsMatch(segs, parts);
    if |parts| == |pieces| {
      forall i | 0 <= i < |pieces|
        ensures SegmentMatches(segs[i], parts[i])
          <==> if i > 0 && IsParamPiece(pieces[i]) then parts[i] != [] else parts[i] == pieces[i]
      {
        SegmentFits(pieces, parts[i], i);
      }
    }
  }

  /** Pieces made of lower-case ASCII letters, where a piece may open with `:`. The
      registered patterns are written this way. */
  predicate LowerPieces(pieces: seq<string>) {
    forall i, k :: 0 <= i < |pieces| && 0 <= k < |pieces[i]| ==>
      'a' <= pieces[i][k] <= 'z' || (k == 0 && pieces[i][k] == ':')
  }

  lemma RegisteredPiecesAreLower()
    ensures LowerPieces(VirtuesPieces) && LowerPieces(UserVirtuesPieces)
    ensures LowerPieces(UsersPieces) && LowerPieces(UserPieces)
  {
  }

  /** `AcceptsPieces` for every path at once, for lower-case pieces. */
  lemma AcceptsPiecesAll(pieces: seq<string>)
    requires |pieces| > 0 && LowerPieces(pieces)
    ensures IsPlainPattern(Join(pieces, '/'))
    ensures forall path :: Accepts(Join(pieces, '/'), path) <==> PiecesMatch(pieces, Split(path, '/'))
  {
    PatternOfPieces(pieces);
    forall path ensures Accepts(Join(pieces, '/'), path) <==> PiecesMatch(pieces, Split(path, '/')) {
      AcceptsPieces(pieces, path);
    }
  }

  // ---------------------------------------------------------------------------------------
  // The route table

  /** Route `r` is registered for `verb` and `pattern` with handler `h`. */
  ghost predicate Registered(r: Route<Handler>, verb: HttpMethod, pattern: string, h: Handler) {
    && r.verb == verb && r.handler == h
    && forall path :: Matches(r.regex, path) <==> Accepts(pattern, path)
  }

  /** The registrations of index.ts (lines 41, 84, 130, 190, 259, 299), in that order, over
      its four path patterns. */
  function RegisterAll(virtues: string, userVirtues: string, users: string, user: string): (rs: seq<Route<Handler>>)
    requires IsPlainPattern(virtues) && IsPlainPattern(userVirtues)
    requires IsPlainPattern(users) && IsPlainPattern(user)
    ensures |rs| == 6
    ensures Registered(rs[0], GET, virtues, ListVirtues)
    ensures Registered(rs[1], GET, userVirtues, ListUserVirtues)
    ensures Registered(rs[2], POST, virtues, AddVirtue)
    ensures Registered(rs[3], POST, users, AddUser)
    ensures Registered(rs[4], GET, user, FindUser)
    ensures Registered(rs[5], GET, CatchAll, NotFoundJson)
  {
    var r0 := Get([], virtues, ListVirtues);
    var r1 := Get(r0, userVirtues, ListUserVirtues);
    var r2 := Post(r1, virtues, AddVirtue);
    var r3 := Post(r2, users, AddUser);
    var r4 := Get(r3, user, FindUser);
    var r5 := Get(r4, CatchAll, NotFoundJson);
    assert r5[..5] == r4 && r4[..4] == r3 && r3[..3] == r2 && r2[..2] == r1 && r1[..1] == r0;
    r5
  }

  /** The route table the Worker builds for every request. */
  function Routes(): (rs: seq<Route<Handler>>)
    ensures |rs| == 6
    ensures Registered(rs[0], GET, VirtuesPath, ListVirtues)
    ensures Registered(rs[1], GET, UserVirtuesPattern, ListUserVirtues)
    ensures Registered(rs[2], POST, VirtuesPath, AddVirtue)
    ensures Registered(rs[3], POST, UsersPath, AddUser)
    ensures Registered(rs[4], GET, UserPattern, FindUser)
    ensures Registered(rs[5], GET, CatchAll, NotFoundJson)
  {
    RegisteredPiecesAreLower();
    AcceptsPiecesAll(VirtuesPieces);
    AcceptsPiecesAll(UserVirtuesPieces);
    AcceptsPiecesAll(UsersPieces);
    AcceptsPiecesAll(UserPieces);
    RegisterAll(VirtuesPath, UserVirtuesPattern, UsersPath, UserPattern)
  }

  /** Where index.ts sends a request, stated on the pieces of its path: each API route by
      the pieces it needs, any other GET path (a URL pathname never holds a line terminator)
      to the JSON 404, and nothing for any other method or path. */
  function Expected(verb: string, path: string): Option<Handler> {
    var parts := Split(path, '/');
    if verb == "GET" then
      if PiecesMatch(VirtuesPieces, parts) then Some(ListVirtues)
      else if PiecesMatch(UserVirtuesPieces, parts) then Some(ListUserVirtues)
      else if PiecesMatch(UserPieces, parts) then Some(FindUser)
      else if NoLineTerminator(path) then Some(NotFoundJson)
      else None
    else if verb == "POST" then
      if PiecesMatch(VirtuesPieces, parts) then Some(AddVirtue)
      else if PiecesMatch(UsersPieces, parts) then Some(AddUser)
      else None
    else None
  }

  /** No path fits two of the path patterns registered for the same method, so apart from
      the catch-all the registration order never decides between two routes. */
  lemma PatternsDisjoint(parts: seq<string>)
    ensures !(PiecesMatch(VirtuesPieces, parts) && PiecesMatch(UserVirtuesPieces, parts))
    ensures !(PiecesMatch(VirtuesPieces, parts) && PiecesMatch(UserPieces, parts))
    ensures !(PiecesMatch(UserVirtuesPieces, parts) && PiecesMatch(UserPieces, parts))
    ensures !(PiecesMatch(VirtuesPieces, parts) && PiecesMatch(UsersPieces, parts))
  {
    if PiecesMatch(VirtuesPieces, parts) {
      assert !IsParamPiece(VirtuesPieces[2]) && !IsParamPiece(UsersPieces[2]);
      assert parts[2] == VirtuesPieces[2];
    }
  }

  /** First-match dispatch over a table of six entries, spelled out. */
  lemma DispatchSix<H>(rs: seq<Route<H>>, verb: string, path: string)
    requires |rs| == 6
    ensures Dispatch(rs, verb, path) ==
      if Selects(rs[0], verb, path) then ToHandler(0, rs[0].handler)
      else if Selects(rs[1], verb, path) then ToHandler(1, rs[1].handler)
      else if Selects(rs[2], verb, path) then ToHandler(2, rs[2].handler)
      else if Selects(rs[3], verb, path) then ToHandler(3, rs[3].handler)
      else if Selects(rs[4], verb, path) then ToHandler(4, rs[4].handler)
      else if Selects(rs[5], verb, path) then ToHandler(5, rs[5].handler)
      else NoRoute
  {
    var d := Dispatch(rs, verb, path);
    if d.ToHandler? {
      assert forall j :: 0 <= j < d.index ==> !Selects(rs[j], verb, path);
    }
  }

  /** When each entry of the route table selects a request. */
  lemma RouteConditions(verb: string, path: string)
    ensures var rs, parts := Routes(), Split(path, '/');
      && (Selects(rs[0], verb, path) <==> verb == "GET" && PiecesMatch(VirtuesPieces, parts))
      && (Selects(rs[1], verb, path) <==> verb == "GET" && PiecesMatch(UserVirtuesPieces, parts))
      && (Selects(rs[2], verb, path) <==> verb == "POST" && PiecesMatch(VirtuesPieces, parts))
      && (Selects(rs[3], verb, path) <==> verb == "POST" && PiecesMatch(UsersPieces, parts))
      && (Selects(rs[4], verb, path) <==> verb == "GET" && PiecesMatch(UserPieces, parts))
      && (Selects(rs[5], verb, path) <==> verb == "GET" && NoLineTerminator(path))
  {
    RegisteredPiecesAreLower();
    AcceptsPiecesAll(VirtuesPieces);
    AcceptsPiecesAll(UserVirtuesPieces);
    AcceptsPiecesAll(UsersPieces);
    AcceptsPiecesAll(UserPieces);
  }

  /** The router over the route table selects exactly the handler `Expected` names. */
  lemma RouteTable(verb: string, path: string)
    ensures Dispatch(Routes(), verb, path).NoRoute? <==> Expected(verb, path).None?
    ensures Dispatch(Routes(), verb, path).ToHandler? ==>
      Some(Dispatch(Routes(), verb, path).handler) == Expected(verb, path)
  {
    RouteConditions(verb, path);
    PatternsDisjoint(Split(path, '/'));
    DispatchSix(Routes(), verb, path);
  }

  // ---------------------------------------------------------------------------------------
  // The handlers

  /** `new URL(request.url).pathname.split('/')[3]`: `undefined` when the path has fewer
      than four pieces. */
  function FourthPiece(path: string): (r: Option<string>)
    ensures r.Some? <==> Count(path, '/') >= 3
    ensures r.Some? ==> r.value == Split(path, '/')[3] && '/' !in r.value
  {
    var parts := Split(path, '/');
    if |parts| > 3 then Some(parts[3]) else None
  }

  /** `value || fallback` for a bound column: a falsy value is replaced. */
  function OrElse(value: Option<JsVal>, fallback: string): (r: JsVal)
    ensures Truthy(value) ==> r == value.value
    ensures !Truthy(value) ==> r == JStr(fallback)
  {
    if Truthy(value) then value.value else JStr(fallback)
  }

  /** GET /api/virtues: the latest virtues, or 500. */
  function LatestVirtues(cors: CorsHeaders, db: Database): (r: Response)
    ensures IsJsonWithCors(r, cors)
    ensures db.latestVirtues.Done? ==> r.status == 200 && IsSuccess(r, Some(Rows(db.latestVirtues.value)))
    ensures db.latestVirtues.Threw? ==> r.status == 500 && IsFailure(r, FetchVirtuesFailed)
  {
    ListResponse(cors, db.latestVirtues, FetchVirtuesFailed)
  }

  /** GET /api/users/:username/virtues: the virtues of the user named by the fourth path
      piece. Binding `undefined` makes D1 throw, which the handler's `catch` answers. */
  function VirtuesOfUser(cors: CorsHeaders, db: Database, path: string): (r: Response)
    ensures IsJsonWithCors(r, cors)
    ensures FourthPiece(path).None? ==> r.status == 500 && IsFailure(r, FetchUserVirtuesFailed)
    ensures FourthPiece(path).Some? ==>
      var rows := db.virtuesOf(FourthPiece(path).value);
      && (rows.Done? ==> r.status == 200 && IsSuccess(r, Some(Rows(rows.value))))
      && (rows.Threw? ==> r.status == 500 && IsFailure(r, FetchUserVirtuesFailed))
  {
    match FourthPiece(path)
    case None => ErrorResponse(cors, FetchUserVirtuesFailed)
    case Some(username) => ListResponse(cors, db.virtuesOf(username), FetchUserVirtuesFailed)
  }

  /** Destructuring `{ content, userId }` (or any fields) from a `null` body throws; from any
      other value it reads the properties. */
  predicate Destructurable(body: RequestBody) {
    body.Parsed? && !body.json.JNull?
  }

  /** POST /api/virtues: both fields must be truthy; the content is stored as sent, with a
      fresh id; a `success` of false is thrown and answered like any other failure. */
  function CreateVirtue(cors: CorsHeaders, env: Env, body: RequestBody): (r: Response)
    ensures IsJsonWithCors(r, cors)
    ensures r.status == 400 <==>
      Destructurable(body) && !(Truthy(Prop(body.json, "content")) && Truthy(Prop(body.json, "userId")))
    ensures r.status == 400 ==> IsFailure(r, ContentRequired)
    ensures r.status == 200 <==>
      && Destructurable(body) && Truthy(Prop(body.json, "content")) && Truthy(Prop(body.json, "userId"))
      && env.db.insertVirtue(VirtueInsert(env.uuid, Prop(body.json, "content").value,
                                          Prop(body.json, "userId").value)) == Done(true)
    ensures r.status == 200 ==> IsSuccess(r, None)
    ensures r.status != 200 && r.status != 400 ==> r.status == 500 && IsFailure(r, CreateVirtueFailed)
  {
    match body
    case Unparsable => ErrorResponse(cors, CreateVirtueFailed)
    case Parsed(v) =>
      if v.JNull? then ErrorResponse(cors, CreateVirtueFailed)
      else
        var content := Prop(v, "content");
        var userId := Prop(v, "userId");
        if !Truthy(content) || !Truthy(userId) then ErrorResponse(cors, ContentRequired, 400)
        else
          match env.db.insertVirtue(VirtueInsert(env.uuid, content.value, userId.value))
          case Done(true) => SuccessResponse(cors, None)
          case _ => ErrorResponse(cors, CreateVirtueFailed)
  }

  /** The three fields POST /api/users requires to be truthy. */
  predicate HasRequiredUserFields(user: JsVal)
    requires !user.JNull?
  {
    Truthy(Prop(user, "username")) && Truthy(Prop(user, "display_name")) && Truthy(Prop(user, "email"))
  }

  /** The row `POST /api/users` inserts: falsy `id` and `avatar_url` are replaced by
      placeholders, and so would the other three, but they are truthy by then. */
  function NewUser(user: JsVal, now: string): (row: UserInsert)
    requires !user.JNull?
    ensures HasRequiredUserFields(user) ==>
      && row.username == Prop(user, "username").value
      && row.displayName == Prop(user, "display_name").value
      && row.email == Prop(user, "email").value
    ensures Truthy(Prop(user, "id")) ==> row.id == Prop(user, "id").value
    ensures !Truthy(Prop(user, "id")) ==> row.id == JStr("tempid1")
    ensures Truthy(Prop(user, "avatar_url")) ==> row.avatarUrl == Prop(user, "avatar_url").value
    ensures !Truthy(Prop(user, "avatar_url")) ==> row.avatarUrl == JStr("temp4")
    ensures row.createdAt == now
  {
    UserInsert(
      OrElse(Prop(user, "id"), "tempid1"),
      OrElse(Prop(user, "username"), "tempid2"),
      OrElse(Prop(user, "display_name"), "temp3"),
      OrElse(Prop(user, "avatar_url"), "temp4"),
      OrElse(Prop(user, "email"), "temp5"),
      now)
  }

  /** POST /api/users: `username`, `display_name` and `email` must be truthy; `id` is not
      checked. */
  function CreateUser(cors: CorsHeaders, env: Env, body: RequestBody): (r: Response)
    ensures IsJsonWithCors(r, cors)
    ensures r.status == 400 <==> Destructurable(body) && !HasRequiredUserFields(body.json)
    ensures r.status == 400 ==> IsFailure(r, UserFieldsRequired)
    ensures r.status == 200 <==>
      && Destructurable(body) && HasRequiredUserFields(body.json)
      && env.db.insertUser(NewUser(body.json, env.now)) == Done(true)
    ensures r.status == 200 ==> IsSuccess(r, None)
    ensures r.status != 200 && r.status != 400 ==> r.status == 500 && IsFailure(r, CreateUserFailed)
  {
    match body
    case Unparsable => ErrorResponse(cors, CreateUserFailed)
    case Parsed(v) =>
      if v.JNull? then ErrorResponse(cors, CreateUserFailed)
      else if !HasRequiredUserFields(v) then ErrorResponse(cors, UserFieldsRequired, 400)
      else
        match env.db.insertUser(NewUser(v, env.now))
        case Done(true) => SuccessResponse(cors, None)
        case _ => ErrorResponse(cors, CreateUserFailed)
  }

  /** GET /api/users/:id: `{ success: true, data: results[0] }`. With no row `data` is
      `undefined`, which `JSON.stringify` leaves out. */
  function UserById(cors: CorsHeaders, db: Database, path: string): (r: Response)
    ensures IsJsonWithCors(r, cors)
    ensures r.status == 500 <==> FourthPiece(path).None? || db.usersWithId(FourthPiece(path).value).Threw?
    ensures r.status == 500 ==> IsFailure(r, FetchUserFailed)
    ensures r.status != 500 ==> r.status == 200 && r.body.envelope.success && r.body.envelope.error.None?
    ensures r.status == 200 ==>
      var rows := db.usersWithId(FourthPiece(path).value).value;
      r.body.envelope.data == if |rows| > 0 then Some(Record(rows[0])) else None
  {
    match FourthPiece(path)
    case None => ErrorResponse(cors, FetchUserFailed)
    case Some(id) =>
      match db.usersWithId(id)
      case Threw => ErrorResponse(cors, FetchUserFailed)
      case Done(rows) => SuccessResponse(cors, if |rows| > 0 then Some(Record(rows[0])) else None)
  }

  /** GET of any other path: the JSON 404. */
  function NotFoundResponse(cors: CorsHeaders): (r: Response)
    ensures r.status == 404 && IsJsonWithCors(r, cors) && IsFailure(r, NotFound)
  {
    ErrorResponse(cors, NotFound, 404)
  }

  /** Running a handler on the request. */
  function Run(h: Handler, env: Env, cors: CorsHeaders, req: Request): (r: Response)
    ensures IsJsonWithCors(r, cors)
  {
    match h
    case ListVirtues => LatestVirtues(cors, env.db)
    case ListUserVirtues => VirtuesOfUser(cors, env.db, req.path)
    case AddVirtue => CreateVirtue(cors, env, req.body)
    case AddUser => CreateUser(cors, env, req.body)
    case FindUser => UserById(cors, env.db, req.path)
    case NotFoundJson => NotFoundResponse(cors)
  }

  /** The preflight answer: status 200, no body, the CORS headers. */
  function Preflight(cors: CorsHeaders): Response {
    Response(200, None, Some(cors), NoBody)
  }

  /** `fetch`: preflight requests are answered before any route is consulted; everything
      else goes through the route table. */
  function Fetch(env: Env, req: Request): (r: Response)
    ensures req.verb == "OPTIONS" ==> r == Preflight(AppCorsHeaders(env.origins, req.origin))
    ensures req.verb != "OPTIONS" && Expected(req.verb, req.path).None? ==> r == PlainNotFound
    ensures req.verb != "OPTIONS" && Expected(req.verb, req.path).Some? ==>
      r == Run(Expected(req.verb, req.path).value, env, AppCorsHeaders(env.origins, req.origin), req)
  {
    var cors := AppCorsHeaders(env.origins, req.origin);
    if req.verb == "OPTIONS" then Preflight(cors)
    else
      RouteTable(req.verb, req.path);
      Handle(Routes(), req.verb, req.path, h => Run(h, env, cors, req))
  }

  // ---------------------------------------------------------------------------------------
  // Properties of the Worker

  /** A preflight request is answered before the route table exists: the answer depends on
      the allowed origins and the `Origin` header alone, never on the path, the body or the
      database. */
  lemma PreflightSkipsHandlers(e1: Env, e2: Env, r1: Request, r2: Request)
    requires r1.verb == "OPTIONS" && r2.verb == "OPTIONS"
    requires e1.origins == e2.origins && r1.origin == r2.origin
    ensures Fetch(e1, r1) == Fetch(e2, r2)
    ensures Fetch(e1, r1).status == 200 && Fetch(e1, r1).body == NoBody
    ensures Fetch(e1, r1).cors == Some(AppCorsHeaders(e1.origins, r1.origin))
  {
  }

  /** The handlers behind `/api/users/:username/virtues` and `/api/users/:id` read
      `split('/')[3]`, which for every path those routes take is the parameter: present and
      non-empty. */
  lemma RoutedParameter(path: string)
    requires Expected("GET", path) == Some(ListUserVirtues) || Expected("GET", path) == Some(FindUser)
    ensures FourthPiece(path).Some? && FourthPiece(path).value != []
  {
    var parts := Split(path, '/');
    if PiecesMatch(UserVirtuesPieces, parts) {
      assert IsParamPiece(UserVirtuesPieces[3]);
    } else {
      assert PiecesMatch(UserPieces, parts);
      assert IsParamPiece(UserPieces[3]);
    }
  }

  /** No handler but the catch-all answers 404: the others answer 200, 400 or 500. */
  lemma OnlyCatchAllIs404(h: Handler, env: Env, cors: CorsHeaders, req: Request)
    ensures Run(h, env, cors, req).status == 404 <==> h == NotFoundJson
  {
  }

  /** Every GET the Worker can receive gets a JSON answer with the CORS headers, and it is a
      404 exactly when the path fits none of the three GET path patterns: the catch-all
      registered last takes what the others leave. */
  lemma GetAnswersJson(env: Env, req: Request)
    requires req.verb == "GET" && NoLineTerminator(req.path)
    ensures IsJsonWithCors(Fetch(env, req), AppCorsHeaders(env.origins, req.origin))
    ensures var parts := Split(req.path, '/');
      Fetch(env, req).status == 404 <==>
        !PiecesMatch(VirtuesPieces, parts) && !PiecesMatch(UserVirtuesPieces, parts)
        && !PiecesMatch(UserPieces, parts)
  {
    var h := Expected(req.verb, req.path).value;
    OnlyCatchAllIs404(h, env, AppCorsHeaders(env.origins, req.origin), req);
  }

  /** A request of another method that no route takes gets the router's plain-text 404,
      without CORS headers, where a GET would get the JSON one. */
  lemma UnmatchedIsPlainText(env: Env, req: Request)
    requires req.verb != "GET" && req.verb != "OPTIONS"
    requires var parts := Split(req.path, '/');
      !(req.verb == "POST" && (PiecesMatch(VirtuesPieces, parts) || PiecesMatch(UsersPieces, parts)))
    ensures Fetch(env, req) == PlainNotFound
    ensures Fetch(env, req).cors.None? && Fetch(env, req).contentType.None?
  {
  }

  /** Creating a virtue checks truthiness only: content made of spaces alone, or a
      non-string content, reaches the database as sent. */
  lemma TruthyContentReachesDatabase(cors: CorsHeaders, env: Env, body: RequestBody)
    requires Destructurable(body)
    requires Truthy(Prop(body.json, "content")) && Truthy(Prop(body.json, "userId"))
    ensures var row := VirtueInsert(env.uuid, Prop(body.json, "content").value, Prop(body.json, "userId").value);
      && CreateVirtue(cors, env, body).status != 400
      && (CreateVirtue(cors, env, body).status == 200 <==> env.db.insertVirtue(row) == Done(true))
  {
  }

  /** Creating a user does not require an id: a body without one is inserted under the
      placeholder id `tempid1`. */
  lemma UserIdNotRequired(cors: CorsHeaders, env: Env, body: RequestBody)
    requires Destructurable(body) && HasRequiredUserFields(body.json) && !Truthy(Prop(body.json, "id"))
    ensures NewUser(body.json, env.now).id == JStr("tempid1")
    ensures CreateUser(cors, env, body).status == 200 <==>
      env.db.insertUser(NewUser(body.json, env.now)) == Done(true)
  {
  }
}

