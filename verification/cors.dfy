/** The CORS policy of the backend (virtue-scroll-api/src/cors.ts, the identical copy at the
    end of virtue-scroll-api/src/auth.ts, and the variant inlined in
    virtue-scroll-api/src/index.ts).

    The request's `Origin` is echoed when it is on the configured allow-list; otherwise the
    first configured origin is sent. The other four headers never change. A missing header
    value (`null` or `undefined` in JavaScript) is `None`.
 */
module Cors {
  import opened Wrappers

  datatype CorsHeaders = CorsHeaders(
    allowOrigin: Option<string>,
    allowMethods: string,
    allowHeaders: string,
    maxAge: string,
    allowCredentials: string)

  const AllowMethods := "GET, POST, PUT, DELETE, OPTIONS"
  const AllowHeaders := "Content-Type, Authorization"
  const MaxAge := "86400"
  const AllowCredentials := "true"

  /** The four headers that are the same for every request. */
  predicate HasFixedHeaders(h: CorsHeaders) {
    && h.allowMethods == AllowMethods
    && h.allowHeaders == AllowHeaders
    && h.maxAge == MaxAge
    && h.allowCredentials == AllowCredentials
  }

  /** `origins[0]`, which is `undefined` for an empty list. */
  function FirstOrigin(origins: seq<string>): (o: Option<string>)
    ensures o.Some? <==> |origins| > 0
    ensures o.Some? ==> o.value == origins[0]
  {
    if |origins| > 0 then Some(origins[0]) else None
  }

  /** cors.ts: `origins.includes(origin || '') ? origin! : origins[0]`. An absent Origin is
      looked up as the empty string; when the empty string is allow-listed, the absent value
      itself is what gets echoed. */
  function GetCorsHeaders(origins: seq<string>, origin: Option<string>): (h: CorsHeaders)
    ensures HasFixedHeaders(h)
    ensures origin.Some? && origin.value in origins ==> h.allowOrigin == origin
    ensures origin.GetOr("") !in origins ==> h.allowOrigin == FirstOrigin(origins)
    ensures origin.None? && "" in origins ==> h.allowOrigin.None?
    ensures |origins| > 0 && "" !in origins ==> h.allowOrigin.Some? && h.allowOrigin.value in origins
  {
    var allowOrigin := if origin.GetOr("") in origins then origin else FirstOrigin(origins);
    CorsHeaders(allowOrigin, AllowMethods, AllowHeaders, MaxAge, AllowCredentials)
  }

  /** index.ts: `allowedOrigins.includes(origin) ? origin : allowedOrigins[0]`, where an
      absent Origin is `null` and is never on a list of strings. */
  function AppCorsHeaders(origins: seq<string>, origin: Option<string>): (h: CorsHeaders)
    ensures HasFixedHeaders(h)
    ensures origin.Some? && origin.value in origins ==> h.allowOrigin == origin
    ensures !(origin.Some? && origin.value in origins) ==> h.allowOrigin == FirstOrigin(origins)
    ensures |origins| > 0 ==> h.allowOrigin.Some? && h.allowOrigin.value in origins
  {
    var allowOrigin := if origin.Some? && origin.value in origins then origin else FirstOrigin(origins);
    CorsHeaders(allowOrigin, AllowMethods, AllowHeaders, MaxAge, AllowCredentials)
  }

  /** The two copies agree except for an absent Origin with the empty string allow-listed. */
  lemma CorsVariantsAgree(origins: seq<string>, origin: Option<string>)
    ensures GetCorsHeaders(origins, origin) == AppCorsHeaders(origins, origin)
        <==> !(origin.None? && "" in origins)
  {
  }
}
