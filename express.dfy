/**
 * The part of an Express application the generated bridge files rely on:
 * the router's layer stack, built by `app.get(path, handler)` and friends,
 * and the first-match scan the bridges run over it. Handlers are modelled by
 * what they do to the response object: the sequence of calls they make.
 */
module Express {
  import opened Wrappers
  import opened Paths

  /** JSON values; numbers are integers in this model. */
  datatype Json =
    | JNull
    | JBool(b: bool)
    | JNum(n: int)
    | JStr(s: string)
    | JArr(items: seq<Json>)
    | JObj(fields: seq<(string, Json)>)

  /** `{ error: msg }`. */
  function ErrorBody(msg: string): Json {
    JObj([("error", JStr(msg))])
  }

  /** One thing a route handler does with `res` (or with `next`), in order. */
  datatype Call =
    | Status(code: int)
    | SetHeader(name: string, value: string)
    | SendJson(data: Json)
    | Send(data: Json)
    | CallNext

  /**
   * The request object a bridge hands to an Express handler. `body` is
   * `None` for `undefined`; `originalUrl` and `path` are set by one bridge only.
   */
  datatype Request = Request(
    httpMethod: string,
    url: string,
    headers: map<string, string>,
    body: Option<Json>,
    params: map<string, string>,
    query: map<string, string>,
    originalUrl: Option<string>,
    path: Option<string>)

  type Handler = Request -> seq<Call>

  /** `layer.route`: the declared path, the lower-case methods it answers, and its first handler. */
  datatype Route = Route(path: string, methods: set<string>, handle: Handler)

  /** A router layer: middleware (`app.use`) has no route. */
  datatype Layer = Layer(route: Option<Route>)

  /** A declaration `app.<verb>(path, handler)`, the verb in lower case. */
  datatype Declared = Declared(verb: string, path: string, handle: Handler)

  /** The layer `app.<verb>(path, handler)` appends to the router stack. */
  function RouteLayer(d: Declared): (l: Layer)
    ensures l.route.Some? && l.route.value.path == d.path && l.route.value.methods == {d.verb}
  {
    Layer(Some(Route(d.path, {d.verb}, d.handle)))
  }

  /** The stack after the middleware layers `base` and then the declarations `ds`, in order. */
  function Registered(base: seq<Layer>, ds: seq<Declared>): (stack: seq<Layer>)
    ensures |stack| == |base| + |ds|
    ensures stack[..|base|] == base
    ensures forall i :: 0 <= i < |ds| ==> stack[|base| + i] == RouteLayer(ds[i])
  {
    if ds == [] then base else Registered(base, ds[..|ds| - 1]) + [RouteLayer(ds[|ds| - 1])]
  }

  /**
   * What a generated handler compares a layer's route path with: the literal
   * path it was generated with, or (the corrected bridges) the group key the
   * declared path normalises to.
   */
  datatype Lookup = ByPath(path: string) | ByGroup(key: string)

  /** `layer.route && <path test> && layer.route.methods[verb]`. */
  predicate Matches(l: Layer, lookup: Lookup, verb: string) {
    && l.route.Some?
    && verb in l.route.value.methods
    && match lookup
       case ByPath(p) => l.route.value.path == p
       case ByGroup(k) => GroupKey(StripApiPrefix(l.route.value.path)) == k
  }

  /** The first index from `from` on whose element satisfies `p`. */
  function FirstFrom<T>(xs: seq<T>, p: T -> bool, from: nat): (r: Option<nat>)
    requires from <= |xs|
    ensures r.Some? ==> from <= r.value < |xs| && p(xs[r.value])
    ensures r.Some? ==> forall j :: from <= j < r.value ==> !p(xs[j])
    ensures r.None? ==> forall j :: from <= j < |xs| ==> !p(xs[j])
    decreases |xs| - from
  {
    if from == |xs| then None
    else if p(xs[from]) then Some(from)
    else FirstFrom(xs, p, from + 1)
  }

  /** `stack.find(...)`: the index of the first matching layer. */
  function FindRoute(stack: seq<Layer>, lookup: Lookup, verb: string): (r: Option<nat>)
    ensures r.Some? ==> r.value < |stack| && Matches(stack[r.value], lookup, verb)
    ensures r.Some? ==> forall j :: 0 <= j < r.value ==> !Matches(stack[j], lookup, verb)
    ensures r.None? ==> forall j :: 0 <= j < |stack| ==> !Matches(stack[j], lookup, verb)
  {
    FirstFrom(stack, MatchOf(lookup, verb), 0)
  }

  function MatchOf(lookup: Lookup, verb: string): Layer -> bool {
    l => Matches(l, lookup, verb)
  }

  /** A first index found in `xs` is still the first once more elements follow. */
  lemma FirstFromAppend<T>(xs: seq<T>, more: seq<T>, p: T -> bool)
    requires FirstFrom(xs, p, 0).Some?
    ensures FirstFrom(xs + more, p, 0) == FirstFrom(xs, p, 0)
  {
    var i := FirstFrom(xs, p, 0).value;
    var r := FirstFrom(xs + more, p, 0);
    assert (xs + more)[i] == xs[i];
  }

  /** The first match wins: layers added after it are never consulted. */
  lemma FirstMatchWins(stack: seq<Layer>, more: seq<Layer>, lookup: Lookup, verb: string)
    requires FindRoute(stack, lookup, verb).Some?
    ensures FindRoute(stack + more, lookup, verb) == FindRoute(stack, lookup, verb)
  {
    FirstFromAppend(stack, more, MatchOf(lookup, verb));
  }

  /** The corrected lookup finds a layer for every route the table declares. */
  lemma GroupLookupFindsDeclared(stack: seq<Layer>, i: nat, verb: string)
    requires i < |stack| && stack[i].route.Some? && verb in stack[i].route.value.methods
    ensures FindRoute(stack, ByGroup(GroupKey(StripApiPrefix(stack[i].route.value.path))), verb).Some?
  {
  }

  /** Every declaration is served by the corrected lookup of its group. */
  lemma DeclaredIsFound(base: seq<Layer>, ds: seq<Declared>, i: nat)
    requires i < |ds|
    ensures FindRoute(Registered(base, ds), ByGroup(GroupKey(StripApiPrefix(ds[i].path))), ds[i].verb).Some?
  {
    var stack := Registered(base, ds);
    assert stack[|base| + i] == RouteLayer(ds[i]);
    GroupLookupFindsDeclared(stack, |base| + i, ds[i].verb);
  }

  /**
   * A literal lookup path containing `[` matches no route of a table whose
   * declared paths use `:name` parameters, as Express paths do.
   */
  lemma BracketPathNeverFound(stack: seq<Layer>, p: string, verb: string)
    requires '[' in p
    requires forall j :: 0 <= j < |stack| && stack[j].route.Some? ==> '[' !in stack[j].route.value.path
    ensures FindRoute(stack, ByPath(p), verb).None?
  {
  }
}
