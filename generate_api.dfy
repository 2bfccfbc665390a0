/**
 * The handlers `generate-api.js` generates: the same extraction, grouping and
 * one file per group as the smart bridge (module `BridgeRoutes`, with
 * `route.js` files), but a dispatch that builds its mock response up front,
 * runs the first matching layer's handler inside the scan, records that it
 * found one and stops; `next` is a no-op.
 */
module GenerateApi {
  import opened Wrappers
  import opened Text
  import opened Paths
  import opened RouteScan
  import opened Express
  import opened Mock

  /** `next` is `() => {}`; `json`/`send` do not record the data. */
  const Plain: Bridge := Bridge(NextIgnored, false)

  /** The generated `mockReq`: the full API path as URL, no params, no original URL or path. */
  function MockRequest(m: string, incoming: Incoming, apiPath: string): Request {
    Request(m, apiPath, incoming.headers, Some(BodyOrEmpty(incoming)), map[], incoming.query, None, None)
  }

  /**
   * The generated lookup loop: for the first layer whose route matches, run
   * its handler on the mock response, set `found` and stop; when nothing was
   * found, resolve the 404.
   */
  method Dispatch(stack: seq<Layer>, lookup: Lookup, verb: string, req: Request) returns (r: Option<Response>)
    ensures r == Outcome(stack, lookup, verb, req, Plain)
  {
    var res := new MockResponse(Plain);
    var found := false;
    for i := 0 to |stack|
      invariant !found && res.State() == Fresh
      invariant forall j :: 0 <= j < i ==> !Matches(stack[j], lookup, verb)
    {
      if Matches(stack[i], lookup, verb) {
        OutcomeAt(stack, lookup, verb, req, Plain, i);
        res.Invoke(stack[i].route.value.handle(req));
        found := true;
        break;
      }
    }
    if !found {
      res.Resolve(NotFound);
    }
    r := res.settled;
  }

  /** What the exported handler `m` of the file for group `key` answers, with the lookup by group key. */
  function HandlerOutcome(stack: seq<Layer>, key: string, m: string, incoming: Incoming): Option<Response> {
    Outcome(stack, ByGroup(key), ToLower(m), MockRequest(m, incoming, FullApiPath(key)), Plain)
  }

  /** As generated: the lookup compares each declared path with the literal full API path. */
  function HandlerOutcomeAsWritten(stack: seq<Layer>, key: string, m: string, incoming: Incoming): Option<Response> {
    Outcome(stack, ByPath(FullApiPath(key)), ToLower(m), MockRequest(m, incoming, FullApiPath(key)), Plain)
  }

  /** The exported handler `m` of the file for group `key`. */
  method Handle(stack: seq<Layer>, key: string, m: string, incoming: Incoming) returns (r: Option<Response>)
    ensures r == HandlerOutcome(stack, key, m, incoming)
  {
    var fullApiPath := FullApiPath(key);
    r := Dispatch(stack, ByGroup(key), ToLower(m), MockRequest(m, incoming, fullApiPath));
  }

  /** The handler generated for a declaration's group and method runs a handler of that group and method. */
  lemma ServesDeclared(base: seq<Layer>, ds: seq<Declared>, i: nat, incoming: Incoming) returns (j: nat)
    requires i < |ds| && ds[i].verb in Verbs
    ensures var stack := Registered(base, ds);
      var key := GroupKey(StripApiPrefix(ds[i].path));
      && j <= |base| + i
      && Matches(stack[j], ByGroup(key), ds[i].verb)
      && HandlerOutcome(stack, key, ToUpper(ds[i].verb), incoming)
         == Run(Fresh, stack[j].route.value.handle(MockRequest(ToUpper(ds[i].verb), incoming, FullApiPath(GroupKey(StripApiPrefix(ds[i].path))))), Plain).settled
  {
    var key := GroupKey(StripApiPrefix(ds[i].path));
    VerbsRoundTrip(ds[i].verb);
    j := DeclaredOutcome(base, ds, i, MockRequest(ToUpper(ds[i].verb), incoming, FullApiPath(key)), Plain);
  }

  /** As generated, a declared route with a `:name` parameter is never served: its handler answers 404. */
  lemma AsWrittenParamRouteNotFound(base: seq<Layer>, ds: seq<Declared>, i: nat, pre: string, x: string, post: string, incoming: Incoming)
    requires i < |ds|
    requires StripApiPrefix(ds[i].path) == pre + "/:" + x + post
    requires x != [] && '/' !in x && SegmentBoundary(post)
    requires forall l :: l in base && l.route.Some? ==> '[' !in l.route.value.path
    requires forall d :: d in ds ==> '[' !in d.path
    ensures var key := GroupKey(StripApiPrefix(ds[i].path));
      HandlerOutcomeAsWritten(Registered(base, ds), key, ToUpper(ds[i].verb), incoming) == Some(NotFound)
  {
    var key := GroupKey(StripApiPrefix(ds[i].path));
    var m := ToUpper(ds[i].verb);
    ParamRouteLiteralLookup(base, ds, i, pre, x, post, ToLower(m), MockRequest(m, incoming, FullApiPath(key)), Plain);
  }

  /** `next` makes no difference here: a handler that calls it and then answers gets its answer through. */
  lemma NextIsNoOp(pre: seq<Call>, d: Json, post: seq<Call>)
    requires Quiet(pre, Plain)
    ensures Run(Fresh, pre + [CallNext, SendJson(d)] + post, Plain).settled
      == Some(Response(StatusAfter(pre, 200), HeadersAfter(pre, map[]), d))
  {
    var pre' := pre + [CallNext];
    assert Quiet(pre', Plain);
    assert pre + [CallNext, SendJson(d)] + post == pre' + [SendJson(d)] + post;
    FirstAnswerWins(pre', SendJson(d), post, Plain);
    assert StatusAfter(pre', 200) == StatusAfter(pre, 200) by { assert pre'[..|pre'| - 1] == pre; }
    assert HeadersAfter(pre', map[]) == HeadersAfter(pre, map[]) by { assert pre'[..|pre'| - 1] == pre; }
  }
}
