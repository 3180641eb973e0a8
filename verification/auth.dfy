/** Bearer-token verification of the backend (virtue-scroll-api/src/auth.ts): `validateAuth`
    and the `handleProtectedRoute` gate.

    `validateAuth` is an ordered chain of checks; the first one that fails decides the
    rejection message, and every rejection has status 401. Fetching the key set, base64 and
    JSON decoding, key import and RSA signature verification are runtime services the model
    does not look inside: they are the fields of `Primitives`, and a decoding step that would
    throw returns `None`. The key set arrives as an input (`None` when the fetch or its JSON
    failed, or the document has no `keys` array), and so does the clock.
 */
module Auth {
  import opened Wrappers
  import opened Text
  import opened Http

  const Domain := "dev-6q6gfnsktyxcf0bj.us.auth0.com"
  const ExpectedAudience := "https://dev-6q6gfnsktyxcf0bj.us.auth0.com/api/v2/"
  const ExpectedIssuer := "https://" + Domain + "/"

  /** A JSON Web Key of the issuer's key set; `material` stands for the key's other fields. */
  datatype Jwk = Jwk(kid: Option<string>, material: string)

  /** The decoded token header: only the key id is consulted. */
  datatype TokenHeader = TokenHeader(kid: Option<string>)

  /** `aud` is either one value (possibly absent) or a list of audiences. */
  datatype Audience = SingleAudience(value: Option<string>) | AudienceList(values: seq<string>)

  /** The decoded payload claims the verifier reads. */
  datatype Claims = Claims(exp: Option<int>, aud: Audience, iss: Option<string>)

  /** The runtime services the verifier calls. */
  datatype Primitives = Primitives(
    decodeHeader: string -> Option<TokenHeader>,     // JSON.parse(atob(headerB64))
    decodeSignature: string -> Option<seq<int>>,     // atob of the base64url signature, as bytes
    decodePayload: string -> Option<Claims>,         // JSON.parse(atob(payloadB64))
    importKey: Jwk -> bool,                          // crypto.subtle.importKey succeeds
    signatureValid: (Jwk, string, seq<int>) -> bool) // crypto.subtle.verify, RSASSA-PKCS1-v1_5 / SHA-256

  /** What one call of `validateAuth` sees: the `Authorization` header, the fetched key set
      and the clock in milliseconds. */
  datatype AuthInput = AuthInput(authorization: Option<string>, keySet: Option<seq<Jwk>>, nowMs: nat)

  datatype Rejection =
    | NoHeader | BadHeaderFormat | UnknownSigningKey | BadSignature
    | Expired | WrongAudience | WrongIssuer | Undecodable

  function Message(r: Rejection): string {
    match r
    case NoHeader => "No authorization header"
    case BadHeaderFormat => "Invalid authorization header format"
    case UnknownSigningKey => "Invalid token signing key"
    case BadSignature => "Invalid token signature"
    case Expired => "Token expired"
    case WrongAudience => "Invalid token audience"
    case WrongIssuer => "Invalid token issuer"
    case Undecodable => "Invalid token"
  }

  /** `AuthError`: `{ error, status }`. */
  datatype AuthError = AuthError(error: string, status: int)

  // ---------------------------------------------------------------------------------------
  // Pieces of the chain

  /** `authHeader.split(' ')[1]`, `undefined` when there is no second piece. */
  function BearerToken(header: string): (t: Option<string>)
    ensures t.Some? <==> ' ' in header
    ensures t.Some? ==> ' ' !in t.value
    ensures t.Some? ==>
      var start := IndexOf(header, ' ') + 1;
      && start + |t.value| <= |header|
      && header[start..start + |t.value|] == t.value
      && (start + |t.value| == |header| || header[start + |t.value|] == ' ')
  {
    var parts := Split(header, ' ');
    assert ' ' in header <==> multiset(header)[' '] > 0;
    if |parts| > 1 then
      var start := IndexOf(header, ' ') + 1;
      SplitFirstPiece(header[start..], ' ');
      Some(parts[1])
    else None
  }

  /** `parts[i]` of a destructuring assignment, `undefined` past the end. */
  function PartAt(parts: seq<string>, i: nat): Option<string> {
    if i < |parts| then Some(parts[i]) else None
  }

  /** String conversion of a possibly-undefined value, as `atob(x)` and `a + '.' + x` do it. */
  function AsText(s: Option<string>): string {
    s.GetOr("undefined")
  }

  /** `jwks.keys.find(k => k.kid === header.kid)`: the position of the first key whose `kid`
      is strictly equal to `kid` (two absent ids are equal). */
  function FindKey(keys: seq<Jwk>, kid: Option<string>): (i: Option<nat>)
    ensures i.Some? ==> i.value < |keys| && keys[i.value].kid == kid
    ensures i.Some? ==> forall j :: 0 <= j < i.value ==> keys[j].kid != kid
    ensures i.None? <==> forall j :: 0 <= j < |keys| ==> keys[j].kid != kid
  {
    if keys == [] then None
    else if keys[0].kid == kid then Some(0)
    else
      match FindKey(keys[1..], kid)
      case Some(j) => Some(j + 1)
      case None => None
  }

  /** `payload.exp && payload.exp < now`: an absent or zero `exp` is never expired. */
  predicate IsExpired(exp: Option<int>, now: int) {
    exp.Some? && exp.value != 0 && exp.value < now
  }

  /** `Array.isArray(aud) ? aud : [aud]`, with absent entries as `None`. */
  function AudienceValues(aud: Audience): seq<Option<string>> {
    match aud
    case SingleAudience(v) => [v]
    case AudienceList(vs) => seq(|vs|, i requires 0 <= i < |vs| => Some(vs[i]))
  }

  /** `tokenAudience.includes(audience)`. */
  predicate AudienceIncludes(aud: Audience, expected: string) {
    Some(expected) in AudienceValues(aud)
  }

  /** The claim checks, in source order: expiry, audience, issuer. */
  function CheckClaims(c: Claims, now: int): (r: Option<Rejection>)
    ensures r == None <==> !IsExpired(c.exp, now) && AudienceIncludes(c.aud, ExpectedAudience) && c.iss == Some(ExpectedIssuer)
    ensures r == Some(Expired) <==> IsExpired(c.exp, now)
    ensures r == Some(WrongAudience) <==> !IsExpired(c.exp, now) && !AudienceIncludes(c.aud, ExpectedAudience)
    ensures r == Some(WrongIssuer) <==>
      !IsExpired(c.exp, now) && AudienceIncludes(c.aud, ExpectedAudience) && c.iss != Some(ExpectedIssuer)
    ensures r.Some? ==> r.value in {Expired, WrongAudience, WrongIssuer}
  {
    if IsExpired(c.exp, now) then Some(Expired)
    else if !AudienceIncludes(c.aud, ExpectedAudience) then Some(WrongAudience)
    else if c.iss != Some(ExpectedIssuer) then Some(WrongIssuer)
    else None
  }

  // The values the `try` block derives from the token, one per step.

  /** `JSON.parse(atob(headerB64))`, with `headerB64` the text before the first `.`. */
  function HeaderOf(token: string, p: Primitives): Option<TokenHeader> {
    p.decodeHeader(Split(token, '.')[0])
  }

  /** The signature bytes, when the token has a third piece and it decodes. */
  function SignatureOf(token: string, p: Primitives): Option<seq<int>> {
    match PartAt(Split(token, '.'), 2)
    case None => None
    case Some(b64) => p.decodeSignature(b64)
  }

  /** `headerB64 + '.' + payloadB64`, the text the signature covers. */
  function SignedText(token: string): string {
    var parts := Split(token, '.');
    parts[0] + "." + AsText(PartAt(parts, 1))
  }

  /** `JSON.parse(atob(payloadB64))`. */
  function ClaimsOf(token: string, p: Primitives): Option<Claims> {
    p.decodePayload(AsText(PartAt(Split(token, '.'), 1)))
  }

  /** The `try` block: decode the header, find the key, import it, check the signature over
      `headerB64 + '.' + payloadB64`, then decode the payload and check its claims. Anything
      that throws becomes `Undecodable`. The contract states each step's outcome in the order
      the steps run. */
  function VerifyToken(token: string, keySet: Option<seq<Jwk>>, nowMs: nat, p: Primitives): (r: Option<Rejection>)
    ensures r.Some? ==> r.value !in {NoHeader, BadHeaderFormat}
    ensures keySet.None? || HeaderOf(token, p).None? ==> r == Some(Undecodable)
    ensures r == Some(UnknownSigningKey) <==>
      keySet.Some? && HeaderOf(token, p).Some? && FindKey(keySet.value, HeaderOf(token, p).value.kid).None?
    ensures keySet.Some? && HeaderOf(token, p).Some? && FindKey(keySet.value, HeaderOf(token, p).value.kid).Some? ==>
      var key := keySet.value[FindKey(keySet.value, HeaderOf(token, p).value.kid).value];
      && (!p.importKey(key) || SignatureOf(token, p).None? ==> r == Some(Undecodable))
      && (p.importKey(key) && SignatureOf(token, p).Some? ==>
            && (r == Some(BadSignature) <==> !p.signatureValid(key, SignedText(token), SignatureOf(token, p).value))
            && (p.signatureValid(key, SignedText(token), SignatureOf(token, p).value) ==>
                  r == match ClaimsOf(token, p)
                       case None => Some(Undecodable)
                       case Some(claims) => CheckClaims(claims, nowMs / 1000)))
  {
    if keySet.None? then Some(Undecodable)
    else
      var keys := keySet.value;
      var parts := Split(token, '.');
      var headerB64 := parts[0];
      var payloadB64 := PartAt(parts, 1);
      var signatureB64 := PartAt(parts, 2);
      match p.decodeHeader(headerB64)
      case None => Some(Undecodable)
      case Some(header) =>
        match FindKey(keys, header.kid)
        case None => Some(UnknownSigningKey)
        case Some(k) =>
          var key := keys[k];
          if !p.importKey(key) then Some(Undecodable)
          else if signatureB64.None? then Some(Undecodable)
          else
            match p.decodeSignature(signatureB64.value)
            case None => Some(Undecodable)
            case Some(signature) =>
              if !p.signatureValid(key, headerB64 + "." + AsText(payloadB64), signature) then Some(BadSignature)
              else
                match p.decodePayload(AsText(payloadB64))
                case None => Some(Undecodable)
                case Some(claims) => CheckClaims(claims, nowMs / 1000)
  }

  /** The header checks followed by the token checks; `None` means the request is
      authenticated. */
  function Verdict(input: AuthInput, p: Primitives): (r: Option<Rejection>)
    ensures input.authorization.None? || input.authorization == Some("") ==> r == Some(NoHeader)
    ensures r == Some(NoHeader) ==> input.authorization.None? || input.authorization == Some("")
    ensures r == Some(BadHeaderFormat) <==>
      && input.authorization.Some? && input.authorization.value != ""
      && (BearerToken(input.authorization.value).None? || BearerToken(input.authorization.value) == Some(""))
    ensures TokenOf(input).Some? ==> r == VerifyToken(TokenOf(input).value, input.keySet, input.nowMs, p)
  {
    match input.authorization
    case None => Some(NoHeader)
    case Some(header) =>
      if header == "" then Some(NoHeader)
      else
        match BearerToken(header)
        case None => Some(BadHeaderFormat)
        case Some(token) =>
          if token == "" then Some(BadHeaderFormat)
          else VerifyToken(token, input.keySet, input.nowMs, p)
  }

  /** `validateAuth`: `null` when authenticated, otherwise the message of the first failed
      check with status 401. */
  function ValidateAuth(input: AuthInput, p: Primitives): (r: Option<AuthError>)
    ensures r.Some? ==> r.value.status == 401
    ensures r.None? <==> Verdict(input, p).None?
    ensures r.Some? ==> r.value.error == Message(Verdict(input, p).value)
    ensures input.authorization.None? || input.authorization == Some("") ==>
      r == Some(AuthError("No authorization header", 401))
    ensures input.authorization.Some? && input.authorization.value != "" && TokenOf(input).None? ==>
      r == Some(AuthError("Invalid authorization header format", 401))
    ensures TokenOf(input).Some? && input.keySet.None? ==> r == Some(AuthError("Invalid token", 401))
  {
    match Verdict(input, p)
    case None => None
    case Some(why) => Some(AuthError(Message(why), 401))
  }

  /** `handleProtectedRoute`: the handler's response when authenticated; otherwise a JSON
      `{ success: false, error }` with the rejection's status and without CORS headers. */
  function HandleProtectedRoute(input: AuthInput, p: Primitives, handler: () -> Response): (r: Response)
    ensures Verdict(input, p).None? ==> r == handler()
    ensures Verdict(input, p).Some? ==>
      && r.status == 401
      && r.contentType == Some(JsonType) && r.cors.None?
      && IsFailure(r, Message(Verdict(input, p).value))
  {
    match ValidateAuth(input, p)
    case Some(e) => Response(e.status, Some(JsonType), None, Json(Envelope(false, None, Some(e.error))))
    case None => handler()
  }

  // ---------------------------------------------------------------------------------------
  // Properties of the chain

  /** Every message the verifier can produce is distinct, so a caller can tell the reason. */
  lemma MessagesDistinct(a: Rejection, b: Rejection)
    ensures Message(a) == Message(b) <==> a == b
  {
  }

  /** The token as the chain reads it, when the header checks pass. */
  function TokenOf(input: AuthInput): Option<string> {
    match input.authorization
    case None => None
    case Some(h) =>
      match BearerToken(h)
      case Some(t) => if t == "" then None else Some(t)
      case None => None
  }

  /** Authentication succeeds exactly when every check in the chain passes. */
  predicate AllChecksPass(input: AuthInput, p: Primitives) {
    && input.authorization.Some? && input.authorization.value != ""
    && TokenOf(input).Some?
    && input.keySet.Some?
    && var token := TokenOf(input).value;
       var keys := input.keySet.value;
       && HeaderOf(token, p).Some?
       && FindKey(keys, HeaderOf(token, p).value.kid).Some?
       && var key := keys[FindKey(keys, HeaderOf(token, p).value.kid).value];
          && p.importKey(key)
          && SignatureOf(token, p).Some?
          && p.signatureValid(key, SignedText(token), SignatureOf(token, p).value)
          && ClaimsOf(token, p).Some?
          && var c := ClaimsOf(token, p).value;
             && !IsExpired(c.exp, input.nowMs / 1000)
             && AudienceIncludes(c.aud, ExpectedAudience)
             && c.iss == Some(ExpectedIssuer)
  }

  lemma AcceptedIffAllChecksPass(input: AuthInput, p: Primitives)
    ensures ValidateAuth(input, p).None? <==> AllChecksPass(input, p)
  {
  }

  /** The signature is checked before the payload is even decoded: once it fails, no payload
      decoding changes the answer. */
  lemma SignatureBeforeClaims(input: AuthInput, p: Primitives, decodePayload: string -> Option<Claims>)
    requires Verdict(input, p) == Some(BadSignature)
    ensures Verdict(input, p.(decodePayload := decodePayload)) == Some(BadSignature)
  {
  }

  /** The request carries a token that gets through every step up to and including the
      signature check, and whose payload decodes to `c`. */
  predicate SignedWithClaims(input: AuthInput, p: Primitives, c: Claims) {
    && TokenOf(input).Some? && input.keySet.Some?
    && var token := TokenOf(input).value;
       var keys := input.keySet.value;
       && HeaderOf(token, p).Some?
       && FindKey(keys, HeaderOf(token, p).value.kid).Some?
       && var key := keys[FindKey(keys, HeaderOf(token, p).value.kid).value];
          && p.importKey(key)
          && SignatureOf(token, p).Some?
          && p.signatureValid(key, SignedText(token), SignatureOf(token, p).value)
          && ClaimsOf(token, p) == Some(c)
  }

  /** Once the signature holds, the claims alone decide the answer of `validateAuth`. */
  lemma ClaimsDecide(input: AuthInput, p: Primitives, c: Claims)
    requires SignedWithClaims(input, p, c)
    ensures ValidateAuth(input, p) ==
      match CheckClaims(c, input.nowMs / 1000)
      case None => None
      case Some(why) => Some(AuthError(Message(why), 401))
  {
  }

  /** A token whose header names no key of the set is answered "Invalid token signing key". */
  lemma UnknownKeyRejected(input: AuthInput, p: Primitives)
    requires TokenOf(input).Some? && input.keySet.Some?
    requires HeaderOf(TokenOf(input).value, p).Some?
    requires FindKey(input.keySet.value, HeaderOf(TokenOf(input).value, p).value.kid).None?
    ensures ValidateAuth(input, p) == Some(AuthError("Invalid token signing key", 401))
  {
  }

  /** A decoded signature that does not verify is answered "Invalid token signature". */
  lemma BadSignatureRejected(input: AuthInput, p: Primitives)
    requires TokenOf(input).Some? && input.keySet.Some?
    requires HeaderOf(TokenOf(input).value, p).Some?
    requires FindKey(input.keySet.value, HeaderOf(TokenOf(input).value, p).value.kid).Some?
    requires var key := input.keySet.value[FindKey(input.keySet.value, HeaderOf(TokenOf(input).value, p).value.kid).value];
      && p.importKey(key) && SignatureOf(TokenOf(input).value, p).Some?
      && !p.signatureValid(key, SignedText(TokenOf(input).value), SignatureOf(TokenOf(input).value, p).value)
    ensures ValidateAuth(input, p) == Some(AuthError("Invalid token signature", 401))
  {
  }

  /** Expiry is checked against whole seconds, `floor(Date.now() / 1000)`: a token is still
      accepted during the second its `exp` names and rejected from the next one on, and an
      absent or zero `exp` (falsy) never expires. */
  lemma ExpiryBoundary(input: AuthInput, p: Primitives, c: Claims)
    requires SignedWithClaims(input, p, c)
    requires AudienceIncludes(c.aud, ExpectedAudience) && c.iss == Some(ExpectedIssuer)
    ensures c.exp == Some(input.nowMs / 1000) ==> ValidateAuth(input, p) == None
    ensures c.exp.None? || c.exp == Some(0) ==> ValidateAuth(input, p) == None
    ensures c.exp.Some? && c.exp.value > input.nowMs / 1000 ==> ValidateAuth(input, p) == None
    ensures c.exp.Some? && c.exp.value != 0 && c.exp.value < input.nowMs / 1000 ==>
      ValidateAuth(input, p) == Some(AuthError("Token expired", 401))
    ensures input.nowMs >= 2000 && c.exp == Some(input.nowMs / 1000 - 1) ==>
      ValidateAuth(input, p) == Some(AuthError("Token expired", 401))
  {
    ClaimsDecide(input, p, c);
  }

  /** Expiry takes precedence over the audience, which takes precedence over the issuer. */
  lemma ClaimPrecedence(c: Claims, now: int)
    ensures IsExpired(c.exp, now) ==> CheckClaims(c, now) == Some(Expired)
    ensures !IsExpired(c.exp, now) && !AudienceIncludes(c.aud, ExpectedAudience) ==> CheckClaims(c, now) == Some(WrongAudience)
  {
  }

  /** A single-string `aud` is treated as a one-element list. */
  lemma AudienceAsList(s: string, vs: seq<string>)
    ensures AudienceIncludes(SingleAudience(Some(s)), ExpectedAudience) <==> s == ExpectedAudience
    ensures AudienceIncludes(AudienceList(vs), ExpectedAudience) <==> ExpectedAudience in vs
    ensures !AudienceIncludes(SingleAudience(None), ExpectedAudience)
  {
    var l := AudienceValues(AudienceList(vs));
    if ExpectedAudience in vs {
      var i :| 0 <= i < |vs| && vs[i] == ExpectedAudience;
      assert l[i] == Some(ExpectedAudience);
    }
  }
}
