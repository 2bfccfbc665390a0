/**
 * The handlers `smart-vercel-bridge.ts` generates: one exported function per
 * method of a group, which builds a mock request for the group's full API
 * path, scans the Express router for the first layer with that path and
 * method, and runs its handler against a mock response whose `json`/`send`
 * resolve the returned promise. Calling `next` resolves a 500.
 */
module SmartVercelBridge {
  import opened Wrappers
  import opened Text
  import opened Paths
  import opened RouteScan
  import opened Express
  import opened Mock

  /** `next` resolves a 500; the overriding `json`/`send` do not record the data. */
  const Smart: Bridge := Bridge(NextResponds500, false)

  /**
   * `createMockRequest({ method, headers, body, query }, apiPath)`: the URL,
   * original URL and path are all the API path, and there are no params.
   * `req.query || {}` never falls back, as `query` is always an object.
   */
  function MockRequest(m: string, incoming: Incoming, apiPath: string): Request {
    Request(m, apiPath, incoming.headers, Some(BodyOrEmpty(incoming)), map[], incoming.query, Some(apiPath), Some(apiPath))
  }

  /**
   * The generated lookup loop: scan `router.stack`, take the first layer with
   * a route whose path and method match, stop there, and run its handler;
   * with none, resolve the 404.
   */
  method Dispatch(stack: seq<Layer>, lookup: Lookup, verb: string, req: Request) returns (r: Option<Response>)
    ensures r == Outcome(stack, lookup, verb, req, Smart)
  {
    var handler: Option<Handler> := None;
    var found := 0;
    for i := 0 to |stack|
      invariant handler.None?
      invariant forall j :: 0 <= j < i ==> !Matches(stack[j], lookup, verb)
    {
      if Matches(stack[i], lookup, verb) {
        OutcomeAt(stack, lookup, verb, req, Smart, i);
        handler, found := Some(stack[i].route.value.handle), i;
        break;
      }
    }
    if handler.Some? {
      var res := new MockResponse(Smart);
      res.Invoke(handler.value(req));
      r := res.settled;
    } else {
      r := Some(NotFound);
    }
  }

  /**
   * What the exported handler `m` of the file for group `key` answers, with
   * the lookup corrected to compare the group key of each declared path.
   */
  function HandlerOutcome(stack: seq<Layer>, key: string, m: string, incoming: Incoming): Option<Response> {
    Outcome(stack, ByGroup(key), ToLower(m), MockRequest(m, incoming, FullApiPath(key)), Smart)
  }

  /** As generated: the lookup compares each declared path with the literal full API path. */
  function HandlerOutcomeAsWritten(stack: seq<Layer>, key: string, m: string, incoming: Incoming): Option<Response> {
    Outcome(stack, ByPath(FullApiPath(key)), ToLower(m), MockRequest(m, incoming, FullApiPath(key)), Smart)
  }

  /** The exported handler `m` of the file for group `key`. */
  method Handle(stack: seq<Layer>, key: string, m: string, incoming: Incoming) returns (r: Option<Response>)
    ensures r == HandlerOutcome(stack, key, m, incoming)
  {
    var apiPath := FullApiPath(key);
    var req := MockRequest(m, incoming, apiPath);
    r := Dispatch(stack, ByGroup(key), ToLower(m), req);
  }

  /**
   * The handler generated for a declaration's group and method runs the
   * handler of a layer of that group and method (the declaration's own, or
   * an earlier one of the same group): it is never the 404 of a missing route.
   */
  lemma ServesDeclared(base: seq<Layer>, ds: seq<Declared>, i: nat, incoming: Incoming) returns (j: nat)
    requires i < |ds| && ds[i].verb in Verbs
    ensures var stack := Registered(base, ds);
      var key := GroupKey(StripApiPrefix(ds[i].path));
      && j <= |base| + i
      && Matches(stack[j], ByGroup(key), ds[i].verb)
      && HandlerOutcome(stack, key, ToUpper(ds[i].verb), incoming)
         == Run(Fresh, stack[j].route.value.handle(MockRequest(ToUpper(ds[i].verb), incoming, FullApiPath(GroupKey(StripApiPrefix(ds[i].path))))), Smart).settled
  {
    var key := GroupKey(StripApiPrefix(ds[i].path));
    VerbsRoundTrip(ds[i].verb);
    j := DeclaredOutcome(base, ds, i, MockRequest(ToUpper(ds[i].verb), incoming, FullApiPath(key)), Smart);
  }

  /**
   * As generated, a declared route with a `:name` parameter is never served:
   * the handler generated for its group and method answers 404.
   */
  lemma AsWrittenParamRouteNotFound(base: seq<Layer>, ds: seq<Declared>, i: nat, pre: string, x: string, post: string, incoming: Incoming)
    requires i < |ds|
    requires StripApiPrefix(ds[i].path) == pre + "/:" + x + post
    requires x != [] && '/' !in x && SegmentBoundary(post)
    requires forall l :: l in base && l.route.Some? ==> '[' !in l.route.value.path
    requires forall d :: d in ds ==> '[' !in d.path
    ensures var key := GroupKey(StripApiPrefix(ds[i].path));
      HandlerOutcomeAsWritten(Registered(base, ds), key, ToUpper(ds[i].verb), incoming) == Some(NotFound)
  {
    var key := GroupKey(StripApiPrefix(ds[i].path));
    var m := ToUpper(ds[i].verb);
    ParamRouteLiteralLookup(base, ds, i, pre, x, post, ToLower(m), MockRequest(m, incoming, FullApiPath(key)), Smart);
  }
}
