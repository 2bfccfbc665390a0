/**
 * The response side of the generated bridge files. Each generated handler
 * wraps the Express handler call in a promise and hands it a mock `res`
 * object whose `json`/`send` resolve that promise with a `NextResponse`. The
 * first resolution wins; later ones are ignored, as for any promise. The
 * three bridges differ in what the Express `next` callback does and in
 * whether `json`/`send` record the data on the mock.
 */
module Mock {
  import opened Wrappers
  import opened Paths
  import opened Express

  /** `NextResponse.json(body, { status, headers })`. */
  datatype Response = Response(status: int, headers: map<string, string>, body: Json)

  const NotFound: Response := Response(404, map[], ErrorBody("Route not found"))
  const NoResponse: Response := Response(500, map[], ErrorBody("Route handler completed without response"))
  const ServerError: Response := Response(500, map[], ErrorBody("Internal server error"))

  /**
   * What calling `next` does: there is no `next` argument, so calling it
   * throws and the handler stops; `next` resolves a 500; `next` is `() => {}`.
   */
  datatype NextPolicy = NextThrows | NextResponds500 | NextIgnored

  datatype Bridge = Bridge(next: NextPolicy, keepsData: bool)

  /** The mock's observable state, and the promise it resolves (`None` while pending). */
  datatype ResState = ResState(statusCode: int, headers: map<string, string>, data: Json, settled: Option<Response>)

  /** A new mock: status 200, no headers, no data, promise pending. */
  const Fresh: ResState := ResState(200, map[], JNull, None)

  /** `resolve(r)` on a promise in state `p`. */
  function Settle(p: Option<Response>, r: Response): Option<Response> {
    if p.Some? then p else Some(r)
  }

  /** One call of the handler on the mock. */
  function Step(st: ResState, c: Call, b: Bridge): (r: ResState)
    ensures r.statusCode == if c.Status? then c.code else st.statusCode
    ensures st.settled.Some? ==> r.settled == st.settled
    ensures st.settled.None? && r.settled.Some? ==>
      || ((c.SendJson? || c.Send?) && r.settled == Some(Response(st.statusCode, st.headers, c.data)))
      || (c.CallNext? && b.next == NextResponds500 && r.settled == Some(NoResponse))
  {
    match c
    case Status(code) => st.(statusCode := code)
    case SetHeader(name, value) => st.(headers := st.headers[name := value])
    case SendJson(d) =>
      st.(data := if b.keepsData then d else st.data,
          settled := Settle(st.settled, Response(st.statusCode, st.headers, d)))
    case Send(d) =>
      st.(data := if b.keepsData then d else st.data,
          settled := Settle(st.settled, Response(st.statusCode, st.headers, d)))
    case CallNext => if b.next == NextResponds500 then st.(settled := Settle(st.settled, NoResponse)) else st
  }

  /** A call that throws under `b`: `next` where the bridge passes none. */
  predicate Throws(c: Call, b: Bridge) {
    c.CallNext? && b.next == NextThrows
  }

  /** The handler's calls run in order, up to the first one that throws. */
  function Run(st: ResState, calls: seq<Call>, b: Bridge): (r: ResState)
    ensures st.settled.Some? ==> r.settled == st.settled
    decreases |calls|
  {
    if calls == [] then st
    else if Throws(calls[0], b) then st
    else Run(Step(st, calls[0], b), calls[1..], b)
  }

  /** The mock `res` object of a generated handler, together with the promise it resolves. */
  class MockResponse {
    var statusCode: int
    var headers: map<string, string>
    var data: Json
    var settled: Option<Response>
    const bridge: Bridge

    function State(): ResState
      reads this
    {
      ResState(statusCode, headers, data, settled)
    }

    constructor (bridge: Bridge)
      ensures State() == Fresh && this.bridge == bridge
    {
      statusCode, headers, data, settled := 200, map[], JNull, None;
      this.bridge := bridge;
    }

    /** `res.status(code)`: returns the mock itself. */
    method SetStatus(code: int) returns (self: MockResponse)
      modifies this
      ensures self == this && State() == Step(old(State()), Status(code), bridge)
    {
      statusCode := code;
      self := this;
    }

    /** `res.setHeader(name, value)`. */
    method SetHeader(name: string, value: string) returns (self: MockResponse)
      modifies this
      ensures self == this && State() == Step(old(State()), Call.SetHeader(name, value), bridge)
    {
      headers := headers[name := value];
      self := this;
    }

    /** `resolve(r)`. */
    method Resolve(r: Response)
      modifies this
      ensures State() == old(State()).(settled := Settle(old(settled), r))
    {
      if settled.None? {
        settled := Some(r);
      }
    }

    /** `res.json(d)` and `res.send(d)`: resolve with the current status and headers. */
    method Answer(d: Json) returns (self: MockResponse)
      modifies this
      ensures self == this && State() == Step(old(State()), SendJson(d), bridge)
      ensures State() == Step(old(State()), Send(d), bridge)
    {
      if bridge.keepsData {
        data := d;
      }
      Resolve(Response(statusCode, headers, d));
      self := this;
    }

    /** The handler `handle(req, res, next)` making the calls `calls` in order. */
    method Invoke(calls: seq<Call>)
      modifies this
      ensures State() == Run(old(State()), calls, bridge)
    {
      var i := 0;
      while i < |calls|
        invariant i <= |calls|
        invariant Run(old(State()), calls, bridge) == Run(State(), calls[i..], bridge)
      {
        assert calls[i..][0] == calls[i] && calls[i..][1..] == calls[i + 1..];
        if Throws(calls[i], bridge) {
          break;
        }
        match calls[i] {
          case Status(code) =>
            var _ := SetStatus(code);
          case SetHeader(name, value) =>
            var _ := SetHeader(name, value);
          case SendJson(d) =>
            var _ := Answer(d);
          case Send(d) =>
            var _ := Answer(d);
          case CallNext =>
            if bridge.next == NextResponds500 {
              Resolve(NoResponse);
            }
        }
        i := i + 1;
      }
    }
  }

  /** The status code after `calls`: that of the last `status()` call, else `code`. */
  function StatusAfter(calls: seq<Call>, code: int): int {
    if calls == [] then code
    else
      var last := calls[|calls| - 1];
      if last.Status? then last.code else StatusAfter(calls[..|calls| - 1], code)
  }

  /** The headers after `calls`: every `setHeader` recorded over `h`, later ones winning. */
  function HeadersAfter(calls: seq<Call>, h: map<string, string>): map<string, string> {
    if calls == [] then h
    else
      var init := HeadersAfter(calls[..|calls| - 1], h);
      var last := calls[|calls| - 1];
      if last.SetHeader? then init[last.name := last.value] else init
  }

  /** Calls that neither respond nor throw, nor reach a `next` that responds. */
  predicate Quiet(calls: seq<Call>, b: Bridge) {
    forall i :: 0 <= i < |calls| ==>
      !calls[i].SendJson? && !calls[i].Send? && (calls[i].CallNext? ==> b.next == NextIgnored)
  }

  /** Calls that do not throw run one after the other. */
  lemma {:induction false} RunAppend(st: ResState, xs: seq<Call>, ys: seq<Call>, b: Bridge)
    requires forall i :: 0 <= i < |xs| ==> !Throws(xs[i], b)
    ensures Run(st, xs + ys, b) == Run(Run(st, xs, b), ys, b)
    decreases |xs|
  {
    if xs == [] {
      assert xs + ys == ys;
    } else {
      assert (xs + ys)[0] == xs[0];
      assert (xs + ys)[1..] == xs[1..] + ys;
      RunAppend(Step(st, xs[0], b), xs[1..], ys, b);
    }
  }

  /** Quiet calls only move the status code and the headers, and leave the promise as it was. */
  lemma {:induction false} QuietRun(st: ResState, calls: seq<Call>, b: Bridge)
    requires Quiet(calls, b)
    ensures Run(st, calls, b) == st.(statusCode := StatusAfter(calls, st.statusCode), headers := HeadersAfter(calls, st.headers))
    decreases |calls|
  {
    if calls != [] {
      var n := |calls| - 1;
      var init := calls[..n];
      assert calls == init + [calls[n]];
      assert Quiet(init, b);
      RunAppend(st, init, [calls[n]], b);
      QuietRun(st, init, b);
      assert [calls[n]][1..] == [];
    }
  }

  /**
   * The response is the first `json`/`send` of the handler, carrying the
   * status and headers set before it; nothing after it changes the response.
   */
  lemma FirstAnswerWins(pre: seq<Call>, c: Call, post: seq<Call>, b: Bridge)
    requires Quiet(pre, b) && (c.SendJson? || c.Send?)
    ensures Run(Fresh, pre + [c] + post, b).settled
      == Some(Response(StatusAfter(pre, 200), HeadersAfter(pre, map[]), c.data))
  {
    assert forall i :: 0 <= i < |pre| ==> !Throws(pre[i], b);
    RunAppend(Fresh, pre, [c] + post, b);
    assert pre + [c] + post == pre + ([c] + post);
    QuietRun(Fresh, pre, b);
    var st := Step(Run(Fresh, pre, b), c, b);
    assert ([c] + post)[0] == c && ([c] + post)[1..] == post;
  }

  /**
   * A handler that calls `next` before responding: where `next` throws the
   * promise stays pending, where it responds the answer is the 500, and where
   * it is a no-op the call makes no difference.
   */
  lemma NextBeforeAnswer(pre: seq<Call>, post: seq<Call>, b: Bridge)
    requires Quiet(pre, b)
    ensures b.next == NextThrows ==> Run(Fresh, pre + [CallNext] + post, b).settled == None
    ensures b.next == NextResponds500 ==> Run(Fresh, pre + [CallNext] + post, b).settled == Some(NoResponse)
    ensures b.next == NextIgnored ==> Run(Fresh, pre + [CallNext] + post, b) == Run(Fresh, pre + post, b)
  {
    assert Quiet(pre, b);
    assert forall i :: 0 <= i < |pre| ==> !Throws(pre[i], b);
    assert pre + [CallNext] + post == pre + ([CallNext] + post);
    RunAppend(Fresh, pre, [CallNext] + post, b);
    RunAppend(Fresh, pre, post, b);
    QuietRun(Fresh, pre, b);
    assert ([CallNext] + post)[0] == CallNext && ([CallNext] + post)[1..] == post;
  }

  /**
   * What a generated handler answers for a table, a lookup and a lower-case
   * verb: the 404 when no layer matches, else whatever the first matching
   * layer's handler resolves (`None`: the promise never settles).
   */
  function Outcome(stack: seq<Layer>, lookup: Lookup, verb: string, req: Request, b: Bridge): (r: Option<Response>)
    ensures (forall j :: 0 <= j < |stack| ==> !Matches(stack[j], lookup, verb)) ==> r == Some(NotFound)
  {
    match FindRoute(stack, lookup, verb)
    case None => Some(NotFound)
    case Some(i) => Run(Fresh, stack[i].route.value.handle(req), b).settled
  }

  /** When layer `i` is the first that matches, the outcome is what its handler resolves. */
  lemma OutcomeAt(stack: seq<Layer>, lookup: Lookup, verb: string, req: Request, b: Bridge, i: nat)
    requires i < |stack| && Matches(stack[i], lookup, verb)
    requires forall j :: 0 <= j < i ==> !Matches(stack[j], lookup, verb)
    ensures Outcome(stack, lookup, verb, req, b) == Run(Fresh, stack[i].route.value.handle(req), b).settled
  {
    assert FindRoute(stack, lookup, verb) == Some(i);
  }

  /** Only the first matching layer's handler runs: later layers never change the outcome. */
  lemma OutcomeFirstMatch(stack: seq<Layer>, more: seq<Layer>, lookup: Lookup, verb: string, req: Request, b: Bridge)
    requires FindRoute(stack, lookup, verb).Some?
    ensures Outcome(stack + more, lookup, verb, req, b) == Outcome(stack, lookup, verb, req, b)
  {
    FirstMatchWins(stack, more, lookup, verb);
    var i := FindRoute(stack, lookup, verb).value;
    assert (stack + more)[i] == stack[i];
  }

  /** A handler that answers once after setting a status gets exactly that response. */
  lemma OutcomeOfAnswer(stack: seq<Layer>, lookup: Lookup, verb: string, req: Request, b: Bridge, pre: seq<Call>, d: Json, post: seq<Call>)
    requires FindRoute(stack, lookup, verb).Some?
    requires stack[FindRoute(stack, lookup, verb).value].route.value.handle(req) == pre + [SendJson(d)] + post
    requires Quiet(pre, b)
    ensures Outcome(stack, lookup, verb, req, b) == Some(Response(StatusAfter(pre, 200), HeadersAfter(pre, map[]), d))
  {
    FirstAnswerWins(pre, SendJson(d), post, b);
  }

  /**
   * With the lookup by group key, a declared route's group and verb reach the
   * handler of a layer of that group and verb, at or before the declaration's own.
   */
  lemma DeclaredOutcome(base: seq<Layer>, ds: seq<Declared>, i: nat, req: Request, b: Bridge) returns (j: nat)
    requires i < |ds|
    ensures var stack := Registered(base, ds);
      var key := GroupKey(StripApiPrefix(ds[i].path));
      && j <= |base| + i
      && Matches(stack[j], ByGroup(key), ds[i].verb)
      && Outcome(stack, ByGroup(key), ds[i].verb, req, b) == Run(Fresh, stack[j].route.value.handle(req), b).settled
  {
    var stack := Registered(base, ds);
    var key := GroupKey(StripApiPrefix(ds[i].path));
    DeclaredIsFound(base, ds, i);
    j := FindRoute(stack, ByGroup(key), ds[i].verb).value;
    assert Matches(stack[|base| + i], ByGroup(key), ds[i].verb);
  }

  /**
   * With the lookup by the literal full API path of a group, a route declared
   * with a `:name` parameter is never reached: its group key holds `[id]`, which
   * no declared path holds, so the answer is the 404.
   */
  lemma ParamRouteLiteralLookup(base: seq<Layer>, ds: seq<Declared>, i: nat, pre: string, x: string, post: string,
                                verb: string, req: Request, b: Bridge)
    requires i < |ds|
    requires StripApiPrefix(ds[i].path) == pre + "/:" + x + post
    requires x != [] && '/' !in x && SegmentBoundary(post)
    requires forall l :: l in base && l.route.Some? ==> '[' !in l.route.value.path
    requires forall d :: d in ds ==> '[' !in d.path
    ensures Outcome(Registered(base, ds), ByPath(FullApiPath(GroupKey(StripApiPrefix(ds[i].path)))), verb, req, b) == Some(NotFound)
  {
    var stack := Registered(base, ds);
    var key := GroupKey(StripApiPrefix(ds[i].path));
    GroupKeyOfParam(pre, x, post);
    forall j | 0 <= j < |stack| && stack[j].route.Some?
      ensures '[' !in stack[j].route.value.path
    {
      if j < |base| {
        assert stack[j] == base[j] && base[j] in base;
      } else {
        assert stack[j] == RouteLayer(ds[j - |base|]) && ds[j - |base|] in ds;
      }
    }
    assert '[' !in "index";
    FullApiPathKeepsChar(key, '[');
    BracketPathNeverFound(stack, FullApiPath(key), verb);
  }

  /** The request as the Next.js handler receives it; `body` is `None` when it is not valid JSON. */
  datatype Incoming = Incoming(httpMethod: string, headers: map<string, string>, query: map<string, string>, body: Option<Json>)

  /** `request.method !== 'GET' ? await request.json().catch(() => ({})) : {}`. */
  function BodyOrEmpty(req: Incoming): (r: Json)
    ensures req.httpMethod == "GET" || req.body.None? ==> r == JObj([])
    ensures req.httpMethod != "GET" && req.body.Some? ==> r == req.body.value
  {
    if req.httpMethod != "GET" then req.body.GetOr(JObj([])) else JObj([])
  }
}
