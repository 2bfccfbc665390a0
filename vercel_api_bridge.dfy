/**
 * `generate-vercel-api-bridge.ts`: a generator object that reads the routes
 * file, extracts one route per matching line (with its handler name and line
 * number), groups the routes by normalised path into lists, and writes one
 * `route.ts` per group whose exported handlers look the route up in the
 * Express router with `stack.find`.
 */
module VercelApiBridge {
  import opened Wrappers
  import opened Text
  import opened Seqs
  import opened RouteScan
  import opened Paths
  import opened Grouping
  import opened AppLayout
  import opened Express
  import opened Mock

  /** The `Route` interface: method, cleaned path, handler name and 1-based line. */
  datatype RouteInfo = RouteInfo(httpMethod: string, path: string, handlerName: string, lineNumber: nat)

  /** `s.replace(/-/g, '')`. */
  function RemoveHyphens(s: string): (r: string)
    ensures '-' !in r && |r| <= |s|
    ensures forall i :: 0 <= i < |r| ==> r[i] in s
  {
    if s == [] then []
    else (if s[0] == '-' then [] else [s[0]]) + RemoveHyphens(s[1..])
  }

  /** `p && !p.startsWith(':')`: the segments that contribute to a handler name. */
  predicate Kept(p: string) {
    p != [] && p[0] != ':'
  }

  /** `p.charAt(0).toUpperCase() + p.slice(1).replace(/-/g, '')`. */
  function Capitalize(p: string): (r: string)
    requires p != []
    ensures '/' !in p ==> '/' !in r
  {
    assert p[0] in p;
    [UpperChar(p[0])] + RemoveHyphens(p[1..])
  }

  /** The capitalised kept segments, concatenated. */
  function Names(parts: seq<string>): string {
    if parts == [] then []
    else (if Kept(parts[0]) then Capitalize(parts[0]) else []) + Names(parts[1..])
  }

  /** Segments without `/` give a name without `/`. */
  lemma {:induction false} NamesNoSlash(parts: seq<string>)
    requires forall p :: p in parts ==> '/' !in p
    ensures '/' !in Names(parts)
  {
    if parts != [] {
      assert parts[0] in parts;
      assert forall p :: p in parts[1..] ==> p in parts;
      NamesNoSlash(parts[1..]);
    }
  }

  /** `generateHandlerName(method, path)`. */
  function HandlerName(verb: string, path: string): (r: string)
    ensures |r| >= |"handle"| + |verb| && r[..|"handle"| + |verb|] == "handle" + ToUpper(verb)
    ensures '/' !in verb ==> '/' !in r
  {
    NamesNoSlash(Split(path, '/'));
    "handle" + ToUpper(verb) + Names(Split(path, '/'))
  }

  lemma {:induction false} NamesAppend(a: seq<string>, b: seq<string>)
    ensures Names(a + b) == Names(a) + Names(b)
  {
    if a != [] {
      assert (a + b)[0] == a[0] && (a + b)[1..] == a[1..] + b;
      NamesAppend(a[1..], b);
    } else {
      assert a + b == b;
    }
  }

  /** A one-segment path names its handler after the capitalised segment. */
  lemma HandlerNameOfWord(verb: string, w: string)
    requires Kept(w) && '/' !in w
    ensures HandlerName(verb, w) == "handle" + ToUpper(verb) + [UpperChar(w[0])] + RemoveHyphens(w[1..])
  {
    IndexOfAbsent(w, '/');
    assert Split(w, '/') == [w];
    assert [w][1..] == [];
    assert Names([w]) == Capitalize(w);
  }

  /** Parameter segments do not contribute: the handler name is that of the path without them. */
  lemma HandlerNameSkipsParam(verb: string, pre: string, x: string, post: string)
    requires '/' !in x && SegmentBoundary(post)
    ensures HandlerName(verb, pre + "/:" + x + post) == HandlerName(verb, pre + post)
  {
    NamesSkipParam(pre, x, post);
  }

  lemma NamesSkipParam(pre: string, x: string, post: string)
    requires '/' !in x && SegmentBoundary(post)
    ensures Names(Split(pre + "/:" + x + post, '/')) == Names(Split(pre + post, '/'))
  {
    SplitParam(pre, x);
    NamesParam(Split(pre, '/'), ":" + x);
    if post == [] {
      assert pre + "/:" + x + post == pre + "/:" + x;
      assert pre + post == pre;
    } else {
      NamesSkipParamBefore(pre, x, post);
    }
  }

  lemma NamesSkipParamBefore(pre: string, x: string, post: string)
    requires '/' !in x && post != [] && post[0] == '/'
    requires Split(pre + "/:" + x, '/') == Split(pre, '/') + [":" + x]
    requires Names(Split(pre, '/') + [":" + x]) == Names(Split(pre, '/'))
    ensures Names(Split(pre + "/:" + x + post, '/')) == Names(Split(pre + post, '/'))
  {
    var p := ":" + x;
    var sp := Split(pre, '/');
    var sr := Split(post[1..], '/');
    assert Split(pre + post, '/') == sp + sr by {
      assert pre + post == pre + ['/'] + post[1..];
      SplitAppend(pre, post[1..], '/');
    }
    SplitAfterParam(pre, x, post);
    NamesAppend(sp + [p], sr);
    NamesAppend(sp, sr);
  }

  lemma SplitParam(pre: string, x: string)
    requires '/' !in x
    ensures Split(pre + "/:" + x, '/') == Split(pre, '/') + [":" + x]
  {
    var p := ":" + x;
    IndexOfAbsent(p, '/');
    assert Split(p, '/') == [p];
    SplitAppend(pre, p, '/');
    assert pre + "/:" + x == pre + ['/'] + p;
  }

  lemma SplitAfterParam(pre: string, x: string, post: string)
    requires '/' !in x && post != [] && post[0] == '/'
    requires Split(pre + "/:" + x, '/') == Split(pre, '/') + [":" + x]
    ensures Split(pre + "/:" + x + post, '/') == Split(pre, '/') + [":" + x] + Split(post[1..], '/')
  {
    var rest := post[1..];
    assert pre + "/:" + x + post == (pre + "/:" + x) + ['/'] + rest;
    SplitAppend(pre + "/:" + x, rest, '/');
  }

  lemma NamesParam(sp: seq<string>, p: string)
    requires p != [] && p[0] == ':'
    ensures Names(sp + [p]) == Names(sp)
  {
    NamesAppend(sp, [p]);
    assert Names([p]) == [];
  }

  /**
   * The route a line yields: the first match of the pattern in the trimmed
   * line, its verb upper-cased, a leading `/api/` removed, numbered `n`.
   */
  function LineRoute(line: string, n: nat): (r: Option<RouteInfo>)
    ensures r.Some? ==> r.value.lineNumber == n
  {
    var t := Trim(line);
    match Exec(t, 0, true)
    case None => None
    case Some((_, m)) =>
      var (verb, routePath) := Capture(t, m);
      var cleanPath := StripApiPrefix(routePath);
      Some(RouteInfo(ToUpper(verb), cleanPath, HandlerName(verb, cleanPath), n))
  }

  /** A line yields no route exactly when the pattern matches nowhere in the trimmed line. */
  lemma LineRouteNone(line: string, n: nat)
    ensures LineRoute(line, n).None? <==> forall j :: 0 <= j <= |Trim(line)| ==> MatchAt(Trim(line), j, true).None?
  {
    ExecSound(Trim(line), 0, true);
  }

  function Found(r: Option<RouteInfo>): seq<RouteInfo> {
    if r.Some? then [r.value] else []
  }

  /** The routes `route` yields for `lines`, line `i` (0-based) numbered `i + 1`. */
  function NumberLines(lines: seq<string>, route: (string, nat) -> Option<RouteInfo>): seq<RouteInfo> {
    if lines == [] then []
    else NumberLines(lines[..|lines| - 1], route) + Found(route(lines[|lines| - 1], |lines|))
  }

  lemma NumberLinesStep(lines: seq<string>, i: nat, route: (string, nat) -> Option<RouteInfo>)
    requires i < |lines|
    ensures NumberLines(lines[..i + 1], route) == NumberLines(lines[..i], route) + Found(route(lines[i], i + 1))
  {
    assert lines[..i + 1][..i] == lines[..i];
  }

  /** The routes extracted from `lines`. */
  function LineRoutes(lines: seq<string>): seq<RouteInfo> {
    NumberLines(lines, LineRoute)
  }

  /** Each route of `rs` comes from the line its number names, and the numbers increase. */
  predicate FromLines(lines: seq<string>, rs: seq<RouteInfo>, route: (string, nat) -> Option<RouteInfo>) {
    && (forall k :: 0 <= k < |rs| ==>
          1 <= rs[k].lineNumber <= |lines| && route(lines[rs[k].lineNumber - 1], rs[k].lineNumber) == Some(rs[k]))
    && (forall a, b :: 0 <= a < b < |rs| ==> rs[a].lineNumber < rs[b].lineNumber)
  }

  lemma {:induction false} NumberLinesFromLines(lines: seq<string>, route: (string, nat) -> Option<RouteInfo>)
    requires forall l, n :: route(l, n).Some? ==> route(l, n).value.lineNumber == n
    ensures FromLines(lines, NumberLines(lines, route), route)
  {
    if lines != [] {
      var n := |lines|;
      var init := lines[..n - 1];
      NumberLinesFromLines(init, route);
      var ri := NumberLines(init, route);
      var last := Found(route(lines[n - 1], n));
      assert NumberLines(lines, route) == ri + last;
      assert forall k :: 0 <= k < |ri| ==> lines[ri[k].lineNumber - 1] == init[ri[k].lineNumber - 1];
      FromLinesAppend(lines, ri, last, route);
    }
  }

  /** A route of the last line, numbered after the others, keeps `FromLines`. */
  lemma FromLinesAppend(lines: seq<string>, ri: seq<RouteInfo>, last: seq<RouteInfo>, route: (string, nat) -> Option<RouteInfo>)
    requires lines != [] && last == Found(route(lines[|lines| - 1], |lines|))
    requires forall l, n :: route(l, n).Some? ==> route(l, n).value.lineNumber == n
    requires forall k :: 0 <= k < |ri| ==>
      1 <= ri[k].lineNumber < |lines| && route(lines[ri[k].lineNumber - 1], ri[k].lineNumber) == Some(ri[k])
    requires forall a, b :: 0 <= a < b < |ri| ==> ri[a].lineNumber < ri[b].lineNumber
    ensures FromLines(lines, ri + last, route)
  {
  }

  lemma {:induction false} NumberLinesComplete(lines: seq<string>, i: nat, route: (string, nat) -> Option<RouteInfo>)
    requires i < |lines| && route(lines[i], i + 1).Some?
    ensures route(lines[i], i + 1).value in NumberLines(lines, route)
  {
    var n := |lines|;
    if i < n - 1 {
      var init := lines[..n - 1];
      assert init[i] == lines[i];
      NumberLinesComplete(init, i, route);
    }
  }

  /**
   * Each route comes from the line its number names, at most one per line,
   * in line order.
   */
  lemma LineRoutesNumbered(lines: seq<string>)
    ensures FromLines(lines, LineRoutes(lines), LineRoute)
  {
    NumberLinesFromLines(lines, LineRoute);
  }

  /** Every line that matches yields its route. */
  lemma LineRoutesComplete(lines: seq<string>, i: nat)
    requires i < |lines| && LineRoute(lines[i], i + 1).Some?
    ensures LineRoute(lines[i], i + 1).value in LineRoutes(lines)
  {
    NumberLinesComplete(lines, i, LineRoute);
  }

  /** A line's route has one of the five verbs, upper-cased. */
  lemma LineRouteMethod(line: string, n: nat)
    requires LineRoute(line, n).Some?
    ensures LineRoute(line, n).value.httpMethod in UpperVerbs
  {
    var t := Trim(line);
    ExecStep(t, 0, true);
    var m := Exec(t, 0, true).value.1;
    UpperOfVerb(Verbs[m.alt]);
  }

  /** A property every route of every line has holds of all the routes. */
  lemma {:induction false} NumberLinesAll(lines: seq<string>, route: (string, nat) -> Option<RouteInfo>, ok: RouteInfo -> bool)
    requires forall l, n :: route(l, n).Some? ==> ok(route(l, n).value)
    ensures forall r :: r in NumberLines(lines, route) ==> ok(r)
  {
    if lines != [] {
      NumberLinesAll(lines[..|lines| - 1], route, ok);
    }
  }

  /** Every extracted method is one of the five verbs, upper-cased. */
  lemma LineRoutesMethods(lines: seq<string>)
    ensures forall r :: r in LineRoutes(lines) ==> r.httpMethod in UpperVerbs
  {
    var ok := (r: RouteInfo) => r.httpMethod in UpperVerbs;
    forall l, n | LineRoute(l, n).Some?
      ensures ok(LineRoute(l, n).value)
    {
      LineRouteMethod(l, n);
    }
    NumberLinesAll(lines, LineRoute, ok);
  }

  /** A route's map key: `normalizePath(route.path)`. */
  function RouteKey(r: RouteInfo): string {
    NormalizePath(r.path)
  }

  function RouteMethod(r: RouteInfo): string {
    r.httpMethod
  }

  /** `routes.map(r => r.method).filter((m, i, arr) => arr.indexOf(m) === i)`. */
  function FileMethods(group: seq<RouteInfo>): seq<string> {
    KeepFirst(Project(group, RouteMethod))
  }

  /** A file exports one handler per distinct method of its group, in first-seen order. */
  lemma FileMethodsDistinct(group: seq<RouteInfo>)
    ensures FileMethods(group) == Dedup(Project(group, RouteMethod))
    ensures Distinct(FileMethods(group))
    ensures forall m :: m in FileMethods(group) <==> exists r :: r in group && r.httpMethod == m
  {
    KeepFirstIsDedup(Project(group, RouteMethod));
    var p := Project(group, RouteMethod);
    forall m ensures m in FileMethods(group) <==> exists r :: r in group && r.httpMethod == m
    {
      if m in FileMethods(group) {
        var j :| 0 <= j < |p| && p[j] == m;
        assert group[j] in group;
      }
      if exists r :: r in group && r.httpMethod == m {
        var r :| r in group && r.httpMethod == m;
        var j :| 0 <= j < |group| && group[j] == r;
        assert p[j] == m;
      }
    }
  }

  /** `'/api/' + filePath.replace(/\[([^\]]+)\]/g, ':$1')`: the path the generated handlers look up. */
  function LookupPath(filePath: string): string {
    "/api/" + BracketsToParams(filePath)
  }

  /** The lookup path is always under `/api/`, and a key without brackets is looked up as it is. */
  lemma LookupPathPlain(filePath: string)
    ensures StartsWith(LookupPath(filePath), ApiPrefix)
    ensures '[' !in filePath ==> LookupPath(filePath) == ApiPrefix + filePath
  {
    assert LookupPath(filePath)[..|ApiPrefix|] == ApiPrefix;
  }

  /** A written file: where it goes, its group, its exported methods and the path they look up. */
  datatype GeneratedFile = GeneratedFile(file: string, key: string, methods: seq<string>, apiPath: string)

  function FileFor(key: string, group: seq<RouteInfo>): GeneratedFile {
    GeneratedFile(ApiFile(Split(key, '/'), "route.ts"), key, FileMethods(group), LookupPath(key))
  }

  /** The file the loop writes for the group `normalizedPath`: `index` is kept as it is. */
  function GroupFile(normalizedPath: string, group: seq<RouteInfo>): (f: GeneratedFile)
    ensures f == FileFor(normalizedPath, group)
  {
    var filePath := if normalizedPath == "index" then "index" else normalizedPath;
    GeneratedFile(ApiFile(Split(filePath, '/'), "route.ts"), normalizedPath, FileMethods(group), LookupPath(filePath))
  }

  /** The loop of `extractRoutes()`: for each line in order, the route it yields, numbered from 1. */
  method ScanLines(lines: seq<string>) returns (found: seq<RouteInfo>)
    ensures found == LineRoutes(lines)
  {
    found := [];
    for index := 0 to |lines|
      invariant found == NumberLines(lines[..index], LineRoute)
    {
      var route := LineRoute(lines[index], index + 1);
      NumberLinesStep(lines, index, LineRoute);
      if route.Some? {
        found := found + [route.value];
      }
    }
    assert lines[..|lines|] == lines;
  }

  /** `VercelAPIBridgeGenerator`. */
  class Generator {
    var routes: seq<RouteInfo>
    var routesContent: string

    constructor ()
      ensures routes == [] && routesContent == ""
    {
      routes, routesContent := [], "";
    }

    /**
     * `analyzeRoutesFile()`, given the routes file or `None` when it does not
     * exist: a missing file is the thrown error (`false`) and changes nothing.
     */
    method AnalyzeRoutesFile(file: Option<string>) returns (ok: bool)
      modifies this
      ensures ok <==> file.Some?
      ensures ok ==> routesContent == file.value && routes == old(routes) + LineRoutes(Split(file.value, '\n'))
      ensures !ok ==> routesContent == old(routesContent) && routes == old(routes)
    {
      if file.None? {
        return false;
      }
      routesContent := file.value;
      ExtractRoutes();
      ok := true;
    }

    /** `extractRoutes()`: split the content into lines and push the routes they yield, in order. */
    method ExtractRoutes()
      modifies this
      ensures routesContent == old(routesContent)
      ensures routes == old(routes) + LineRoutes(Split(routesContent, '\n'))
    {
      var lines := Split(routesContent, '\n');
      var found := ScanLines(lines);
      routes := routes + found;
    }

    /** `groupRoutesByPath()`: the routes listed under their normalised path, keys in first-seen order. */
    method GroupRoutesByPath() returns (keys: seq<string>, groups: map<string, seq<RouteInfo>>)
      ensures keys == Keys(routes, RouteKey)
      ensures forall k :: k in groups <==> k in keys
      ensures forall k :: k in groups ==> groups[k] == Members(routes, RouteKey, k)
    {
      keys, groups := GroupLists(routes, RouteKey);
    }

    /** `generateAPIFiles()`: one file per group, in key order, counted by `generatedFiles`. */
    method GenerateApiFiles() returns (written: seq<GeneratedFile>, generatedFiles: nat)
      ensures generatedFiles == |written| == |Keys(routes, RouteKey)|
      ensures forall i :: 0 <= i < |written| ==>
        written[i] == FileFor(Keys(routes, RouteKey)[i], Members(routes, RouteKey, Keys(routes, RouteKey)[i]))
    {
      var keys, groups := GroupRoutesByPath();
      written, generatedFiles := [], 0;
      for i := 0 to |keys|
        invariant generatedFiles == |written| == i
        invariant forall j :: 0 <= j < i ==> written[j] == FileFor(keys[j], groups[keys[j]])
      {
        var normalizedPath := keys[i];
        assert normalizedPath in keys;
        written := written + [GroupFile(normalizedPath, groups[normalizedPath])];
        generatedFiles := generatedFiles + 1;
      }
    }
  }

  /** The groups of the generator are those of the smart bridge: `normalizePath` is the group key. */
  lemma SameGroupsAsSmartBridge(routes: seq<RouteInfo>)
    ensures Keys(routes, RouteKey) == Keys(routes, (r: RouteInfo) => GroupKey(r.path))
  {
    forall i | 0 <= i < |routes|
      ensures RouteKey(routes[i]) == GroupKey(routes[i].path)
    {
      NormalizePathIsGroupKey(routes[i].path);
    }
    assert Project(routes, RouteKey) == Project(routes, (r: RouteInfo) => GroupKey(r.path));
  }

  /**
   * `handle(mockReq, mockRes)` with no `next`: calling `next` throws and
   * ends the handler; `json`/`send` record the data.
   */
  const Strict: Bridge := Bridge(NextThrows, true)

  /** The generated `mockReq`: `body` is the parsed JSON for other methods than GET, else `undefined`. */
  function MockRequest(m: string, incoming: Incoming, apiPath: string): Request
    requires incoming.httpMethod == "GET" || incoming.body.Some?
  {
    Request(m, apiPath, incoming.headers, if incoming.httpMethod != "GET" then incoming.body else None,
            map[], incoming.query, None, None)
  }

  /**
   * What the exported handler `m` of the file for group `key` answers, with
   * the lookup corrected to compare the group key of each declared path: a
   * body that does not parse is the 500 of the `catch`.
   */
  function HandlerOutcome(stack: seq<Layer>, key: string, m: string, incoming: Incoming): Option<Response> {
    if incoming.httpMethod != "GET" && incoming.body.None? then Some(ServerError)
    else Outcome(stack, ByGroup(key), ToLower(m), MockRequest(m, incoming, LookupPath(key)), Strict)
  }

  /** As generated: the lookup compares each declared path with `LookupPath(key)`. */
  function HandlerOutcomeAsWritten(stack: seq<Layer>, key: string, m: string, incoming: Incoming): Option<Response> {
    if incoming.httpMethod != "GET" && incoming.body.None? then Some(ServerError)
    else Outcome(stack, ByPath(LookupPath(key)), ToLower(m), MockRequest(m, incoming, LookupPath(key)), Strict)
  }

  /**
   * The exported handler `m` of the file for group `key`: parse the body,
   * build the mock request, look the route up with `find`, and run its
   * handler against the mock response, or resolve the 404.
   */
  method Handle(stack: seq<Layer>, key: string, m: string, incoming: Incoming) returns (r: Option<Response>)
    ensures r == HandlerOutcome(stack, key, m, incoming)
  {
    var apiPath := LookupPath(key);
    if incoming.httpMethod != "GET" && incoming.body.None? {
      return Some(ServerError);
    }
    var req := MockRequest(m, incoming, apiPath);
    var res := new MockResponse(Strict);
    var handler := FindRoute(stack, ByGroup(key), ToLower(m));
    if handler.Some? {
      res.Invoke(stack[handler.value].route.value.handle(req));
    } else {
      res.Resolve(NotFound);
    }
    r := res.settled;
  }

  /** The handler generated for a declaration's group and method runs a handler of that group and method. */
  lemma ServesDeclared(base: seq<Layer>, ds: seq<Declared>, i: nat, incoming: Incoming) returns (j: nat)
    requires i < |ds| && ds[i].verb in Verbs
    requires incoming.httpMethod == "GET" || incoming.body.Some?
    ensures var stack := Registered(base, ds);
      var key := GroupKey(StripApiPrefix(ds[i].path));
      && j <= |base| + i
      && Matches(stack[j], ByGroup(key), ds[i].verb)
      && HandlerOutcome(stack, key, ToUpper(ds[i].verb), incoming)
         == Run(Fresh, stack[j].route.value.handle(MockRequest(ToUpper(ds[i].verb), incoming, LookupPath(GroupKey(StripApiPrefix(ds[i].path))))), Strict).settled
  {
    var key := GroupKey(StripApiPrefix(ds[i].path));
    VerbsRoundTrip(ds[i].verb);
    j := DeclaredOutcome(base, ds, i, MockRequest(ToUpper(ds[i].verb), incoming, LookupPath(key)), Strict);
  }

  lemma BracketsToParamsIdAlone()
    ensures BracketsToParams("/[id]") == "/:id"
  {
    var s := "[id]";
    CloseEndOf(s, 1, 3);
    assert BracketAtStart(s);
    assert s[1..3] == "id" && s[4..] == [];
    assert BracketsToParams(s) == ":id";
    assert !BracketAtStart("/[id]");
    assert "/[id]"[1..] == s;
  }

  /** Turning the `[id]` of a group key back into a parameter always names it `id`. */
  lemma {:induction false} BracketsToParamsId(q: string)
    requires '[' !in q
    ensures BracketsToParams(q + "/[id]") == q + "/:id"
  {
    if q == [] {
      assert q + "/[id]" == "/[id]";
      BracketsToParamsIdAlone();
    } else {
      assert !BracketAtStart(q + "/[id]");
      assert (q + "/[id]")[1..] == q[1..] + "/[id]";
      BracketsToParamsId(q[1..]);
    }
  }

  /** The group key of a path ending in a parameter segment. */
  lemma GroupKeyEndParam(pre: string, x: string)
    requires NoParam(pre) && x != [] && '/' !in x
    ensures GroupKey(pre + "/:" + x) == pre + "/[id]"
  {
    ParamsToIdAppend(pre, "/:" + x);
    assert pre + "/:" + x == pre + ("/:" + x);
    ParamsToIdParam(x, "");
    assert "/:" + x + "" == "/:" + x;
    ParamsToIdNoParam(pre);
    assert ParamsToId("") == "";
  }

  /**
   * As generated, a route whose last segment is a parameter is looked up as
   * `/api/<prefix>/:id`, so a route declared with any other parameter name is
   * never reached: its handler answers 404 (for a body that parses).
   */
  lemma AsWrittenOtherParamNameNotFound(stack: seq<Layer>, pre: string, x: string, m: string, incoming: Incoming)
    requires NoParam(pre) && '[' !in pre && x != [] && '/' !in x
    requires incoming.httpMethod == "GET" || incoming.body.Some?
    requires forall j :: 0 <= j < |stack| && stack[j].route.Some? ==> stack[j].route.value.path != ApiPrefix + pre + "/:id"
    ensures HandlerOutcomeAsWritten(stack, GroupKey(pre + "/:" + x), m, incoming) == Some(NotFound)
  {
    GroupKeyEndParam(pre, x);
    LookupPathId(pre);
  }

  /** With a single `get` route declared, the corrected handler `GET` of its group runs it. */
  lemma SingleRouteServed(path: string, h: Handler, incoming: Incoming)
    requires incoming.httpMethod == "GET" || incoming.body.Some?
    ensures var key := GroupKey(StripApiPrefix(path));
      HandlerOutcome([RouteLayer(Declared("get", path, h))], key, "GET", incoming)
        == Run(Fresh, h(MockRequest("GET", incoming, LookupPath(key))), Strict).settled
  {
    var key := GroupKey(StripApiPrefix(path));
    var stack := [RouteLayer(Declared("get", path, h))];
    assert ToLower("GET") == "get";
    assert Matches(stack[0], ByGroup(key), "get");
  }

  /** Two paths that differ only in the name of their last parameter differ. */
  lemma ParamNamesDiffer(a: string, x: string)
    requires x != "id"
    ensures a + "/:" + x != a + "/:id"
  {
    assert (a + "/:" + x)[|a| + 2..] == x;
    assert (a + "/:id")[|a| + 2..] == "id";
  }

  /** The path looked up for group `pre/[id]`. */
  lemma LookupPathId(pre: string)
    requires '[' !in pre
    ensures LookupPath(pre + "/[id]") == ApiPrefix + pre + "/:id"
  {
    BracketsToParamsId(pre);
    assert "/api/" + (pre + "/:id") == ApiPrefix + pre + "/:id";
  }

  /**
   * A single route declared with a parameter named other than `id`, such as
   * `/api/projects/:projectId`: as generated, the file for its group
   * (`projects/[id]`) looks up `/api/projects/:id` and answers 404, while the
   * corrected lookup runs the declared handler.
   */
  lemma AsWrittenRenamedParam(pre: string, x: string, h: Handler, incoming: Incoming)
    requires NoParam(pre) && '[' !in pre && x != [] && '/' !in x && x != "id"
    requires incoming.httpMethod == "GET" || incoming.body.Some?
    ensures var path := ApiPrefix + pre + "/:" + x;
      var stack := [RouteLayer(Declared("get", path, h))];
      && GroupKey(StripApiPrefix(path)) == pre + "/[id]"
      && LookupPath(pre + "/[id]") == ApiPrefix + pre + "/:id"
      && HandlerOutcomeAsWritten(stack, pre + "/[id]", "GET", incoming) == Some(NotFound)
      && HandlerOutcome(stack, pre + "/[id]", "GET", incoming)
         == Run(Fresh, h(MockRequest("GET", incoming, LookupPath(pre + "/[id]"))), Strict).settled
  {
    RenamedParamKey(pre, x);
    RenamedParamNotFound(pre, x, h, incoming);
    SingleRouteServed(ApiPrefix + pre + "/:" + x, h, incoming);
  }

  /** The group of `pre/:x` is `pre/[id]`, whose lookup path is `/api/pre/:id`. */
  lemma RenamedParamKey(pre: string, x: string)
    requires NoParam(pre) && '[' !in pre && x != [] && '/' !in x
    ensures GroupKey(StripApiPrefix(ApiPrefix + pre + "/:" + x)) == pre + "/[id]"
    ensures LookupPath(pre + "/[id]") == ApiPrefix + pre + "/:id"
  {
    StripApiPrefixAdded(pre + "/:" + x);
    assert ApiPrefix + pre + "/:" + x == ApiPrefix + (pre + "/:" + x);
    GroupKeyEndParam(pre, x);
    LookupPathId(pre);
  }

  /** As generated, the handler of `pre/[id]` finds no route declared at `pre/:x`. */
  lemma RenamedParamNotFound(pre: string, x: string, h: Handler, incoming: Incoming)
    requires NoParam(pre) && '[' !in pre && x != [] && '/' !in x && x != "id"
    requires incoming.httpMethod == "GET" || incoming.body.Some?
    ensures HandlerOutcomeAsWritten([RouteLayer(Declared("get", ApiPrefix + pre + "/:" + x, h))], pre + "/[id]", "GET", incoming)
      == Some(NotFound)
  {
    GroupKeyEndParam(pre, x);
    ParamNamesDiffer(ApiPrefix + pre, x);
    AsWrittenOtherParamNameNotFound([RouteLayer(Declared("get", ApiPrefix + pre + "/:" + x, h))], pre, x, "GET", incoming);
  }
}
