# Virtue Scroll: a Dafny model of the API core and the profile form

Virtue Scroll is a small social application. Users post short "virtues". A Cloudflare Worker
serves a JSON API over a D1 database, and a React client lets a signed-in user complete a
profile. This project models the core of both sides as pure Dafny functions and proves what
they promise:

- `pattern.dfy` and `router.dfy`: the Worker's router. It keeps an ordered table of (method,
  compiled pattern, handler) entries. `/:name` pieces are rewritten to `/([^/]+)` and the
  pattern is anchored. A request goes to the first entry whose method and pattern match,
  otherwise it gets a plain-text 404. The compiled regex is proved equal to a piece-wise
  reading of the pattern.
- `cors.dfy`: the CORS policy in `cors.ts`. `auth.ts` carries a line-for-line copy. `index.ts`
  has a variant that differs when the `Origin` header is absent. The model proves exactly
  when the two agree.
- `auth.dfy`: `validateAuth`, the ordered chain of bearer-token checks, and the
  `handleProtectedRoute` gate.
- `http.dfy`, `virtue_controller.dfy`, `user_controller.dfy`: the JavaScript values a request
  body can hold, the response envelope, and the two controller classes.
- `app.dfy`: the Worker entry point `index.ts`. It answers the preflight, registers six
  routes, runs each handler's checks, and maps outcomes to 400, 404 and 500. The route table
  is proved to send every request to the handler a piece-wise reference (`App.Expected`)
  names.
- `profile.dfy`: the three validators of `CompleteProfileForm`, the all-valid gate of its
  submit handler, and its change handler.

Everything outside the model is a parameter with a settled outcome:

- the database statements and the controllers' services;
- fetching the key set, base64 and JSON decoding, key import and signature verification;
- the clock, `crypto.randomUUID()` and `new Date().toISOString()`.

A call that throws is `Threw` (or `None` where only success matters), and a `success: false`
insert result is `Done(false)`.

Some behaviour of the code as written is easy to miss. The model keeps it:

- `index.ts` registers its JSON 404 (lines 298-313) with `router.get('.*', …)`, so only GET
  requests reach it. Any other request that no route takes gets the router's own plain-text
  404 without CORS headers (`router.ts` line 48). See `App.UnmatchedIsPlainText` and
  `App.GetAnswersJson`.
- The client's post form shows a `content.length/300` counter (`src/components/CreateVirtueForm.tsx`
  line 135), but nothing enforces 300 characters. `POST /api/virtues` in `index.ts`
  (lines 130-187) tests only truthiness, so content made of spaces alone is stored
  (`App.TruthyContentReachesDatabase`). The controller's `createVirtue`
  (`virtueController.ts` lines 32-36), which `index.ts` does not use, does reject blank content.
- `GET /api/users/:id` in `index.ts` (lines 259-296) answers 200 `{ success: true }` with no
  `data` for an unknown id (`App.UserById`). The controller's `getUser` (`userController.ts`
  lines 30-32) answers 404 instead.
- `index.ts` never calls `validateAuth` or `handleProtectedRoute`, so none of its routes
  requires a token. `auth.dfy` models the verifier on its own.

## Model

| member | source | states |
|---|---|---|
| Pattern.CompiledMatch | virtue-scroll-api/src/router.ts:14 | The anchored regex built from a registered pattern matches a path iff the path splits into as many `/` pieces as the pattern, literal pieces are equal and parameter pieces are non-empty. The `.*` catch-all matches any path without a line terminator. |
| Pattern.SameSlashCount | virtue-scroll-api/src/router.ts:14 | A path a plain pattern matches has exactly as many `/` as the pattern. |
| Pattern.TrailingSlashRejected | virtue-scroll-api/src/router.ts:14 | Anchoring: adding a trailing `/` to a matched path makes it unmatched. |
| Pattern.PrefixRejected | virtue-scroll-api/src/router.ts:14 | Anchoring: putting any non-empty text in front of a path matched by a `/`-leading pattern makes it unmatched. |
| Pattern.LiteralPatternMatchesOnlyItself | virtue-scroll-api/src/router.ts:14 | A pattern without parameters matches exactly one path, its own text. |
| Pattern.ParamPieceCaptured | virtue-scroll-api/src/router.ts:14 | A `:name` piece only matches a non-empty path piece that contains no `/`. |
| Router.Add | virtue-scroll-api/src/router.ts:13-16 | Appends one entry and keeps earlier entries in place. The new entry has the given method and handler, and its regex matches exactly the paths the pattern accepts. |
| Router.Get | virtue-scroll-api/src/router.ts:18-20 | Registers the pattern for GET only, as `Add` does. |
| Router.Post | virtue-scroll-api/src/router.ts:22-24 | Registers the pattern for POST only. |
| Router.Put | virtue-scroll-api/src/router.ts:26-28 | Registers the pattern for PUT only. |
| Router.Options | virtue-scroll-api/src/router.ts:30-32 | Registers the pattern for OPTIONS only. |
| Router.Scan | virtue-scroll-api/src/router.ts:39-46 | Picks the earliest entry from a position on whose method equals the request's and whose regex matches. It picks none iff no such entry exists. |
| Router.Dispatch | virtue-scroll-api/src/router.ts:34-46 | First-match selection over the whole table. No earlier entry selects the request, and the table gives no route iff no entry selects it. |
| Router.Handle | virtue-scroll-api/src/router.ts:34-49 | With no selecting entry the answer is the plain-text 404 without CORS headers. Otherwise it is the handler of the first selecting entry, applied to the request alone. |
| Router.OtherMethodNeverSelected | virtue-scroll-api/src/router.ts:40 | An entry registered for another method is never selected, whatever the path. |
| Router.AppendKeepsDispatch | virtue-scroll-api/src/router.ts:15 | Registering more routes never changes where an already matched request goes. |
| Router.AppendAfterNoRoute | virtue-scroll-api/src/router.ts:39-48 | A request no entry of a table selects reaches only the entries appended later, at positions shifted by the table's length. |
| Cors.GetCorsHeaders | virtue-scroll-api/src/cors.ts:1-11 | An allow-listed Origin is echoed. Otherwise the first configured origin is sent, and an absent Origin is looked up as `''`. With a non-empty list that lacks `''`, the sent origin is always on the list. The other four headers are constants. |
| Cors.AppCorsHeaders | virtue-scroll-api/src/index.ts:11-24 | The same policy in the entry point's variant: an absent Origin is never on the list. |
| Cors.CorsVariantsAgree | virtue-scroll-api/src/cors.ts:5 | The two variants give the same headers except for an absent Origin with `''` allow-listed. |
| Http.JsonResponse | virtue-scroll-api/src/controllers/virtueController.ts:46-54 | A JSON response with the given status, the CORS headers and the envelope. |
| Http.ErrorResponse | virtue-scroll-api/src/controllers/virtueController.ts:56-58 | A failure envelope `{ success: false, error }`, status 500 unless one is given. |
| Http.ListResponse | virtue-scroll-api/src/controllers/virtueController.ts:10-18 | The rows of a list query returned unchanged as `data` with 200. A throwing query gives the operation's fixed message with 500. |
| Auth.BearerToken | virtue-scroll-api/src/auth.ts:19 | The second space-separated piece exists iff the header contains a space. It is exactly the text after the first space, up to the next space or the end of the header. |
| Auth.FindKey | virtue-scroll-api/src/auth.ts:55 | The first key whose `kid` equals the token's. There is none iff no key has it. |
| Auth.CheckClaims | virtue-scroll-api/src/auth.ts:122-154 | The claims pass iff the token is not expired, the audience includes the expected one and the issuer is exactly `https://` + domain + `/`. "Token expired" iff expired. "Invalid token audience" iff not expired and the audience lacks the expected one. "Invalid token issuer" iff both of those pass and the issuer differs. |
| Auth.VerifyToken | virtue-scroll-api/src/auth.ts:30-165 | The token steps in source order. A key set that failed to load or an undecodable header gives "Invalid token". A header naming no key of the set gives "Invalid token signing key", and only that does. A failed key import or a missing or undecodable signature gives "Invalid token". With a decoded signature, "Invalid token signature" iff it does not verify. After a valid signature, an undecodable payload gives "Invalid token" and otherwise the claim checks decide. |
| Auth.Verdict | virtue-scroll-api/src/auth.ts:8-28 | An absent or empty header is "No authorization header", and only those are. A header without a non-empty second piece is "Invalid authorization header format", and only that is. Once a token is read, the answer is `VerifyToken`'s. |
| Auth.ValidateAuth | virtue-scroll-api/src/auth.ts:7-165 | `null` iff the chain passes, otherwise the first failed check's message with status 401. The header checks give "No authorization header" and "Invalid authorization header format", and a key set that failed to load gives "Invalid token". |
| Auth.HandleProtectedRoute | virtue-scroll-api/src/auth.ts:167-180 | The handler's response iff validation passes. Otherwise a JSON `{ success: false, error }` with status 401 and no CORS headers. |
| Auth.MessagesDistinct | virtue-scroll-api/src/auth.ts:11-164 | The eight rejection messages are pairwise different. |
| Auth.AcceptedIffAllChecksPass | virtue-scroll-api/src/auth.ts:7-165 | Validation succeeds iff every check passes: the header, the token, the key set, the header decoding, the key lookup and import, the signature, the payload decoding, expiry, audience and issuer. |
| Auth.SignatureBeforeClaims | virtue-scroll-api/src/auth.ts:105-114 | Once the signature fails, no way of decoding the payload changes the answer. |
| Auth.ExpiryBoundary | virtue-scroll-api/src/auth.ts:122-130 | For a correctly signed token with the right audience and issuer, `validateAuth` accepts while `exp` is at least the current whole second, or absent or zero. It answers 401 "Token expired" once `exp` is earlier, for example one second earlier. |
| Auth.ClaimsDecide | virtue-scroll-api/src/auth.ts:113-157 | For a token whose signature verifies, the claim checks alone decide `validateAuth`: `null` when they pass, otherwise their rejection's message with 401. |
| Auth.UnknownKeyRejected | virtue-scroll-api/src/auth.ts:55-64 | A token whose header names no key of the set gets 401 "Invalid token signing key" from `validateAuth`. |
| Auth.BadSignatureRejected | virtue-scroll-api/src/auth.ts:80-111 | A token whose decoded signature does not verify gets 401 "Invalid token signature" from `validateAuth`. |
| Auth.ClaimPrecedence | virtue-scroll-api/src/auth.ts:124-143 | Expiry is reported before the audience, and the audience before the issuer. |
| Auth.AudienceAsList | virtue-scroll-api/src/auth.ts:133-134 | A single-string `aud` is a one-element list. A list must contain the expected audience, and an absent `aud` never does. |
| VirtueController.GetVirtues | virtue-scroll-api/src/controllers/virtueController.ts:10-18 | The service's rows unchanged as `data` with 200, or 500 "Failed to fetch virtues". Always JSON with the CORS headers. |
| VirtueController.GetUserVirtues | virtue-scroll-api/src/controllers/virtueController.ts:20-28 | The service's rows for that username, or 500 "Failed to fetch user virtues". |
| VirtueController.CheckNewVirtue | virtue-scroll-api/src/controllers/virtueController.ts:32-36 | 400 "Content and userId are required" iff the body is an object whose content is absent, null or blank, or whose userId is falsy. Accepted iff the body is an object with non-blank string content and a truthy userId. The content passed on is the trimmed text. A body that throws gives 500. |
| VirtueController.CreateVirtue | virtue-scroll-api/src/controllers/virtueController.ts:30-44 | 200 `{ success: true }` with no data iff the body is accepted and the service completes. An accepted body whose service call throws gets 500 "Failed to create virtue". A refused body gets its refusal's status and message. |
| VirtueController.RefusalSkipsService | virtue-scroll-api/src/controllers/virtueController.ts:34-38 | A refused body gives the same response whatever the service, so the service is not called. |
| VirtueController.StoredContentIsTrimmed | virtue-scroll-api/src/controllers/virtueController.ts:38 | Accepted content is non-empty and neither starts nor ends with white space. |
| Text.Trim | virtue-scroll-api/src/controllers/virtueController.ts:34-38 | `trim()`: the result is the infix of the text that is left once the white space at both ends is removed. Both removed margins are white space, the result neither starts nor ends with it, and it is empty iff the text is blank. |
| UserController.TrimmedTruthy | virtue-scroll-api/src/controllers/userController.ts:43-45 | `field?.trim()` is truthy iff the field is a non-blank string. It throws iff the field is present, not null and not a string. |
| UserController.ValidateUserInput | virtue-scroll-api/src/controllers/userController.ts:41-48 | True iff username, display_name and email are non-blank strings and id is truthy. Reading stops at the first falsy field. It throws iff the body is null, or the first field that is not a non-blank string is neither absent, null nor a string. |
| UserController.CreateUser | virtue-scroll-api/src/controllers/userController.ts:10-24 | 400 "Invalid user data" iff validation is false. 200 `{ success: true }` iff it is true and the service completes. Otherwise 500 "Failed to create user". |
| UserController.GetUser | virtue-scroll-api/src/controllers/userController.ts:26-39 | 404 "User not found" iff the service finds no user. 500 iff it throws. Otherwise 200 with the user as `data`. |
| UserController.InvalidBodySkipsService | virtue-scroll-api/src/controllers/userController.ts:14-18 | A body that fails validation gives the same response whatever the service. |
| UserController.BlankUsernameDecides | virtue-scroll-api/src/controllers/userController.ts:42-47 | A blank username makes validation false whatever the later fields hold, including fields that would throw if read. |
| App.Routes | virtue-scroll-api/src/index.ts:38-313 | The six entries in registration order, each with its method, its pattern's meaning and its handler. |
| App.PatternsDisjoint | virtue-scroll-api/src/index.ts:41-296 | No path fits two of the path patterns registered for one method, so apart from the catch-all the registration order never decides. |
| App.RouteConditions | virtue-scroll-api/src/index.ts:41-313 | When each of the six entries selects a request, stated on the `/` pieces of its path. |
| App.RouteTable | virtue-scroll-api/src/index.ts:38-316 | The router over the table gives no route iff the reference `Expected` gives none. Otherwise it selects exactly the handler `Expected` names. |
| App.FourthPiece | virtue-scroll-api/src/index.ts:86 | `split('/')[3]` exists iff the path has at least three `/`, and it contains no `/`. |
| App.OrElse | virtue-scroll-api/src/index.ts:221-225 | The `||` default of a bound column: a truthy value is kept, anything else becomes the fallback string. |
| App.LatestVirtues | virtue-scroll-api/src/index.ts:41-81 | The query's rows as `data` with 200, or 500 "Failed to fetch virtues". |
| App.VirtuesOfUser | virtue-scroll-api/src/index.ts:84-127 | The rows for the fourth path piece with 200. 500 "Failed to fetch user virtues" when the query throws or the piece is missing. |
| App.CreateVirtue | virtue-scroll-api/src/index.ts:130-187 | 400 "Content and userId are required" iff the body is an object with a falsy content or userId. 200 iff both are truthy and the insert of (fresh id, content, userId), content as sent, reports success. Otherwise 500 "Failed to create virtue". |
| App.NewUser | virtue-scroll-api/src/index.ts:211-228 | The inserted row carries username, display_name and email as sent. A truthy id or avatar_url is kept as sent, a falsy id becomes `tempid1` and a falsy avatar_url `temp4`. The timestamp is the request's. |
| App.CreateUser | virtue-scroll-api/src/index.ts:190-256 | 400 iff the body is an object lacking a truthy username, display_name or email. 200 iff the insert reports success. Otherwise 500 "Failed to create user". |
| App.UserById | virtue-scroll-api/src/index.ts:259-296 | 500 iff the fourth piece is missing or the lookup throws. Otherwise 200 with the first row as `data`, and no `data` when there is no row. |
| App.NotFoundResponse | virtue-scroll-api/src/index.ts:299-313 | 404 `{ success: false, error: 'Not Found' }` with the CORS headers. |
| App.Run | virtue-scroll-api/src/index.ts:41-313 | Every handler answers JSON with the CORS headers. |
| App.Fetch | virtue-scroll-api/src/index.ts:27-316 | OPTIONS gets the preflight answer. Any other request gets the plain 404 iff `Expected` names no handler, otherwise the response of the handler it names. |
| App.PreflightSkipsHandlers | virtue-scroll-api/src/index.ts:32-36 | A preflight answer is 200 with no body and the CORS headers. It depends only on the allow-list and the Origin, never on the path, body or database. |
| App.RoutedParameter | virtue-scroll-api/src/index.ts:84-86 | For every path routed to a `:username` or `:id` handler, `split('/')[3]` exists and is non-empty. |
| App.OnlyCatchAllIs404 | virtue-scroll-api/src/index.ts:299-313 | Only the catch-all handler answers 404. |
| App.GetAnswersJson | virtue-scroll-api/src/index.ts:299-313 | Every GET gets JSON with the CORS headers, and it is a 404 iff its path fits none of the three GET path patterns. |
| App.UnmatchedIsPlainText | virtue-scroll-api/src/index.ts:299-316 | A non-GET, non-OPTIONS request that no route takes gets the router's plain-text 404 without CORS headers. Its content type is the one the runtime picks, which the model leaves as `None`. |
| App.TruthyContentReachesDatabase | virtue-scroll-api/src/index.ts:135-159 | Truthy content and userId are never refused with 400, even for content of spaces alone. The answer is 200 iff the insert of the content as sent succeeds. |
| App.UserIdNotRequired | virtue-scroll-api/src/index.ts:195-228 | A body without an id is inserted under `tempid1`, and it succeeds iff the insert does. |
| Profile.CheckUsername | src/components/CompleteProfileForm.tsx:42-44 | True iff the username has 3 to 15 characters, each an ASCII letter, digit or `_`. An accepted username is not blank. |
| Profile.Utf16Length | src/components/CompleteProfileForm.tsx:47 | `length` counts UTF-16 code units. It lies between the number of characters and twice that, and equals it when every character is in the Basic Multilingual Plane. |
| Profile.DisplayNameBounds | src/components/CompleteProfileForm.tsx:46-48 | For Basic Multilingual Plane names, valid iff 2 to 50 characters. Any name over 50 characters is refused, and any of 2 to 25 is accepted. |
| Profile.ValidateEmail | src/components/CompleteProfileForm.tsx:50-52 | Exactly one `@`, no white space, a non-empty local part, and a `.` in the domain that is neither its first nor last character, iff the regex `^[^\s@]+@[^\s@]+\.[^\s@]+$` matches. |
| Profile.ShortAddressAccepted | src/components/CompleteProfileForm.tsx:51 | `a@b.c` is accepted. |
| Profile.DotAtDomainEdgeRefused | src/components/CompleteProfileForm.tsx:51 | `a@b.` and `a@.c` are refused. |
| Profile.InitialForm | src/components/CompleteProfileForm.tsx:30-40 | The first state has an empty username, the signed-in user's name and email (empty when absent), all flags valid, no error, and neither loading nor success. |
| Profile.Validate | src/components/CompleteProfileForm.tsx:59-67 | Each field's flag is that field's validator applied to its value. |
| Profile.HandleSubmit | src/components/CompleteProfileForm.tsx:54-73 | The flags become the three validators' results and the error is cleared. The profile is submitted, and the form shows loading, iff all three hold. The values are unchanged. |
| Profile.Settle | src/components/CompleteProfileForm.tsx:75-87 | After the call the form stops loading. It shows success when the call succeeded, otherwise the error's message or "Failed to update profile". |
| Profile.With | src/components/CompleteProfileForm.tsx:92-95 | `{ ...prev, [name]: v }`: the named field becomes `v` and every other field is kept. |
| Profile.HandleChange | src/components/CompleteProfileForm.tsx:90-101 | The named field takes the typed value and its flag is reset to valid. Every other field and flag, the error and the loading and success flags are kept. |
| Profile.ChangesCommute | src/components/CompleteProfileForm.tsx:90-101 | Edits to different fields commute, and of two edits to one field the later wins. |
| Profile.SubmitIgnoresOldFlags | src/components/CompleteProfileForm.tsx:59-67 | What a submit shows depends on the field values only, never on the flags left by earlier edits. |
| Profile.AcceptedUsernameIsNotBlank | src/components/CompleteProfileForm.tsx:43 | A username the form accepts is not blank, so it trims to a non-empty string. |

## Left out

- Network, cryptography and decoding are not modelled. The JWKS fetch, `crypto.subtle.importKey`/`verify`, `atob` and `JSON.parse` are fields of `Auth.Primitives` and inputs, so their correctness is assumed rather than modelled.
- SQL and the D1 database are not modelled: ordering, `LIMIT 50` and joins. Each statement is a function from its bound values to rows, a success flag or a throw. The services behind the controllers (`virtueService.ts`, `userService.ts`) are function parameters in the same way.
- `crypto.randomUUID()`, `new Date().toISOString()` and `Date.now()` are request inputs. Logging (`console.*`) has no effect on responses and is dropped.
- The outer `catch` of `index.ts` (lines 317-332, 500 "Internal Server Error") is not modelled. Every handler catches its own errors and the catch-all cannot throw, so no modelled request reaches it.
- Pattern.Compile: it gives meaning only to the pattern shapes the application registers. Those are plain `/` pieces with whole `:name` parameters, plus the exact `.*` catch-all. Other regex syntax in a pattern is outside the model.
- A request's path is its pathname as `URL` gives it, percent-encoding included. URL parsing itself is not modelled.
- Auth.Claims: `exp` is an integer or absent. A non-numeric or fractional `exp`, a non-string `kid`, and non-string entries of an `aud` list are not modelled.
- Http.JsVal numbers are integers. Floating-point body values are not modelled, and only their truthiness is read.
- `JSON.stringify` output is the abstract `Envelope`. Byte-level serialisation is left out, and `data: undefined` is an absent `data`.
- Cors.CorsHeaders: a `null` or `undefined` Allow-Origin value is `None`. What the runtime writes into the header for such a value is not modelled.
- Profile.HandleChange: the input's `name` is one of the three form fields. An input with any other name, which would add a new key, is not modelled.
- React rendering, styling, `preventDefault`, the 1.5-second navigation timer and the client fetch wrappers (`createOrUpdateUser` and the rest of `src/helpers.ts`) are left out. The awaited call is the `Settle` input.
- The 300-character counter of the post form is display-only and enforced nowhere, so it is not modelled.
