/** The backend's router (virtue-scroll-api/src/router.ts): an ordered table of
    (method, compiled pattern, handler) entries; a request goes to the handler of the first
    entry whose method equals the request method and whose pattern matches the path, and a
    plain-text 404 is returned when there is none.

    Handlers are left abstract (type parameter `H`); `Handle` applies the caller's `invoke`
    to the selected handler, which is how the source calls `route.handler(request)` with the
    request alone and no captured parameters.
 */
module Router {
  import opened Wrappers
  import opened Pattern
  import opened Http

  datatype HttpMethod = GET | POST | PUT | DELETE | OPTIONS

  /** The method as it appears in `request.method`. */
  function MethodName(m: HttpMethod): string {
    match m
    case GET => "GET"
    case POST => "POST"
    case PUT => "PUT"
    case DELETE => "DELETE"
    case OPTIONS => "OPTIONS"
  }

  datatype Route<H> = Route(verb: HttpMethod, regex: Regex, handler: H)

  /** Route `r` is taken for a request with this method and path. */
  predicate Selects<H>(r: Route<H>, verb: string, path: string) {
    MethodName(r.verb) == verb && Matches(r.regex, path)
  }

  /** `add`: compile the pattern and append the entry; earlier entries keep their places. */
  function Add<H>(routes: seq<Route<H>>, verb: HttpMethod, pattern: string, handler: H): (r: seq<Route<H>>)
    requires IsRoutePattern(pattern)
    ensures |r| == |routes| + 1 && r[..|routes|] == routes
    ensures r[|routes|].verb == verb && r[|routes|].handler == handler
    ensures forall path :: Matches(r[|routes|].regex, path) <==> Accepts(pattern, path)
  {
    CompiledMatchAll(pattern);
    routes + [Route(verb, Compile(pattern), handler)]
  }

  lemma CompiledMatchAll(pattern: string)
    requires IsRoutePattern(pattern)
    ensures forall path :: Matches(Compile(pattern), path) <==> Accepts(pattern, path)
  {
    forall path ensures Matches(Compile(pattern), path) <==> Accepts(pattern, path) {
      CompiledMatch(pattern, path);
    }
  }

  /** `get`: registers the pattern for GET and nothing else. */
  function Get<H>(routes: seq<Route<H>>, pattern: string, handler: H): (r: seq<Route<H>>)
    requires IsRoutePattern(pattern)
    ensures |r| == |routes| + 1 && r[..|routes|] == routes
    ensures r[|routes|].verb == GET && r[|routes|].handler == handler
    ensures forall path :: Matches(r[|routes|].regex, path) <==> Accepts(pattern, path)
  {
    Add(routes, GET, pattern, handler)
  }

  /** `post`: registers the pattern for POST and nothing else. */
  function Post<H>(routes: seq<Route<H>>, pattern: string, handler: H): (r: seq<Route<H>>)
    requires IsRoutePattern(pattern)
    ensures |r| == |routes| + 1 && r[..|routes|] == routes
    ensures r[|routes|].verb == POST && r[|routes|].handler == handler
    ensures forall path :: Matches(r[|routes|].regex, path) <==> Accepts(pattern, path)
  {
    Add(routes, POST, pattern, handler)
  }

  /** `put`: registers the pattern for PUT and nothing else. */
  function Put<H>(routes: seq<Route<H>>, pattern: string, handler: H): (r: seq<Route<H>>)
    requires IsRoutePattern(pattern)
    ensures |r| == |routes| + 1 && r[..|routes|] == routes
    ensures r[|routes|].verb == PUT && r[|routes|].handler == handler
    ensures forall path :: Matches(r[|routes|].regex, path) <==> Accepts(pattern, path)
  {
    Add(routes, PUT, pattern, handler)
  }

  /** `options`: registers the pattern for OPTIONS and nothing else. */
  function Options<H>(routes: seq<Route<H>>, pattern: string, handler: H): (r: seq<Route<H>>)
    requires IsRoutePattern(pattern)
    ensures |r| == |routes| + 1 && r[..|routes|] == routes
    ensures r[|routes|].verb == OPTIONS && r[|routes|].handler == handler
    ensures forall path :: Matches(r[|routes|].regex, path) <==> Accepts(pattern, path)
  {
    Add(routes, OPTIONS, pattern, handler)
  }

  /** The outcome of the scan in `handle`: the position and handler of the selected entry, or
      no entry at all. */
  datatype Selection<H> = ToHandler(index: nat, handler: H) | NoRoute

  /** The `for ... of this.routes` scan of `handle`, from position `from` on: the earliest
      entry at or after `from` that selects the request. */
  function Scan<H>(routes: seq<Route<H>>, verb: string, path: string, from: nat): (d: Selection<H>)
    requires from <= |routes|
    ensures d.ToHandler? ==>
      && from <= d.index < |routes|
      && routes[d.index].handler == d.handler
      && Selects(routes[d.index], verb, path)
      && forall j :: from <= j < d.index ==> !Selects(routes[j], verb, path)
    ensures d.NoRoute? <==> forall j :: from <= j < |routes| ==> !Selects(routes[j], verb, path)
    decreases |routes| - from
  {
    if from == |routes| then NoRoute
    else if MethodName(routes[from].verb) == verb && Matches(routes[from].regex, path) then
      ToHandler(from, routes[from].handler)
    else Scan(routes, verb, path, from + 1)
  }

  /** First-match dispatch over the whole table. */
  function Dispatch<H>(routes: seq<Route<H>>, verb: string, path: string): (d: Selection<H>)
    ensures d.ToHandler? ==>
      && d.index < |routes|
      && routes[d.index].handler == d.handler
      && Selects(routes[d.index], verb, path)
      && forall j :: 0 <= j < d.index ==> !Selects(routes[j], verb, path)
    ensures d.NoRoute? <==> forall j :: 0 <= j < |routes| ==> !Selects(routes[j], verb, path)
  {
    Scan(routes, verb, path, 0)
  }

  /** `new Response('Not Found', { status: 404 })`: a text body and no CORS headers. The code
      sets no `Content-Type`; the one the runtime supplies is left as `None`. */
  const PlainNotFound := Response(404, None, None, Text("Not Found"))

  /** `handle`: run the selected handler on the request, or answer with the plain 404. */
  function Handle<H>(routes: seq<Route<H>>, verb: string, path: string, invoke: H -> Response): (r: Response)
    ensures (forall j :: 0 <= j < |routes| ==> !Selects(routes[j], verb, path)) ==> r == PlainNotFound
    ensures forall i :: 0 <= i < |routes| && Selects(routes[i], verb, path)
              && (forall j :: 0 <= j < i ==> !Selects(routes[j], verb, path))
              ==> r == invoke(routes[i].handler)
  {
    match Dispatch(routes, verb, path)
    case ToHandler(_, h) => invoke(h)
    case NoRoute => PlainNotFound
  }

  /** An entry registered for another method is never selected, whatever the path. */
  lemma OtherMethodNeverSelected<H>(routes: seq<Route<H>>, verb: string, path: string, i: nat)
    requires i < |routes| && MethodName(routes[i].verb) != verb
    ensures Dispatch(routes, verb, path) != ToHandler(i, routes[i].handler)
  {
  }

  /** Registering more routes never changes where an already matched request goes. */
  lemma AppendKeepsDispatch<H>(routes: seq<Route<H>>, extra: seq<Route<H>>, verb: string, path: string)
    requires Dispatch(routes, verb, path).ToHandler?
    ensures Dispatch(routes + extra, verb, path) == Dispatch(routes, verb, path)
  {
    var d := Dispatch(routes, verb, path);
    var all := routes + extra;
    var d' := Dispatch(all, verb, path);
    assert all[d.index] == routes[d.index];
    assert d'.ToHandler?;
    assert forall j :: 0 <= j < |routes| ==> all[j] == routes[j];
    assert d'.index == d.index;
  }

  /** A request no entry of a table selects reaches only the entries appended after it, at
      positions shifted by the table's length. */
  lemma AppendAfterNoRoute<H>(routes: seq<Route<H>>, extra: seq<Route<H>>, verb: string, path: string)
    requires Dispatch(routes, verb, path).NoRoute?
    ensures Dispatch(routes + extra, verb, path) ==
      match Dispatch(extra, verb, path)
      case ToHandler(i, h) => ToHandler(|routes| + i, h)
      case NoRoute => NoRoute
  {
    var all := routes + extra;
    assert forall j :: 0 <= j < |extra| ==> all[|routes| + j] == extra[j];
    assert forall j :: 0 <= j < |routes| ==> all[j] == routes[j];
    var d := Dispatch(extra, verb, path);
    var d' := Dispatch(all, verb, path);
    if d.ToHandler? {
      assert Selects(all[|routes| + d.index], verb, path);
      assert d'.ToHandler?;
      assert d'.index >= |routes|;
      assert !(d'.index - |routes| < d.index);
      assert d'.index == |routes| + d.index;
    } else {
      forall j | 0 <= j < |all| ensures !Selects(all[j], verb, path) {
        if j >= |routes| { assert all[j] == extra[j - |routes|]; }
      }
    }
  }
}
