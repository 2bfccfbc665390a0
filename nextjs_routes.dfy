/**
 * `generate-nextjs-routes.ts`: read the Express routes file, extract every
 * `app.verb('path'` declaration (no blanks allowed before `(`), convert each
 * Express path to an App Router path, choose a service call for it, and write
 * one `route.ts` per route unless the path is skipped or the file exists.
 *
 * The file system is the set of files that exist; directories are implied by
 * the files under them. The route file is placed with the corrected
 * `app/api/<nextPath>/route.ts` (see `AppLayout.RouteFileAsWritten` for the
 * `dirname` placement the script performs).
 */
module NextjsRoutes {
  import opened Wrappers
  import opened Text
  import opened RouteScan
  import opened Paths
  import opened Grouping
  import opened AppLayout

  /** `{ method: method.toUpperCase(), path, originalPath: path }`. */
  datatype ExpressRoute = ExpressRoute(httpMethod: string, path: string, originalPath: string)

  function RouteOf(c: (string, string)): ExpressRoute {
    ExpressRoute(ToUpper(c.0), c.1, c.1)
  }

  /** The routes `parseExpressRoutes` returns, with the unspaced pattern. */
  function Parsed(s: string): seq<ExpressRoute> {
    Project(Captures(s, AllMatches(s, 0, false)), RouteOf)
  }

  /** `parseExpressRoutes`: the `exec` loop pushing one route per match. */
  method ParseExpressRoutes(routesContent: string) returns (routes: seq<ExpressRoute>)
    ensures routes == Parsed(routesContent)
  {
    routes := [];
    var lastIndex := 0;
    while true
      invariant lastIndex <= |routesContent|
      invariant routes + Project(Captures(routesContent, AllMatches(routesContent, lastIndex, false)), RouteOf)
        == Parsed(routesContent)
      decreases |routesContent| - lastIndex
    {
      var found := Exec(routesContent, lastIndex, false);
      if found.None? {
        ParsedEnd(routesContent, lastIndex);
        break;
      }
      var m := found.value.1;
      ParsedStep(routesContent, lastIndex, m);
      var (verb, path) := Capture(routesContent, m);
      routes := routes + [ExpressRoute(ToUpper(verb), path, path)];
      lastIndex := m.End();
    }
  }

  /**
   * A routes file written one `app.verb('path'` per line gives one route per
   * declaration, in order: the verb upper-cased, the path kept as it is
   * (`/api/` included) and equal to the original path.
   */
  lemma ParsedRendered(ds: seq<Declaration>)
    requires forall d :: d in ds ==> WellFormed(d)
    ensures var routes := Parsed(RenderAll(ds));
      && |routes| == |ds|
      && forall i :: 0 <= i < |ds| ==>
        routes[i] == ExpressRoute(ToUpper(ds[i].verb), ds[i].path, ds[i].path)
  {
    ScanRendered(ds, false);
    WrittenPairs(ds);
  }

  lemma {:induction false} WrittenPairs(ds: seq<Declaration>)
    ensures |Written(ds)| == |ds|
    ensures forall i :: 0 <= i < |ds| ==> Written(ds)[i] == (ds[i].verb, ds[i].path)
  {
    if ds != [] {
      WrittenPairs(ds[1..]);
    }
  }

  /** One turn of the loop: the match `exec` finds gives the next route, and the scan resumes at its end. */
  lemma ParsedStep(s: string, from: nat, m: Match)
    requires from <= |s| && Exec(s, from, false).Some? && Exec(s, from, false).value.1 == m
    ensures from < m.End() <= |s|
    ensures Project(Captures(s, AllMatches(s, from, false)), RouteOf)
      == [RouteOf(Capture(s, m))] + Project(Captures(s, AllMatches(s, m.End(), false)), RouteOf)
  {
    ExecStep(s, from, false);
    CapturesStep(s, from, false, m);
    ProjectCons(Capture(s, m), Captures(s, AllMatches(s, m.End(), false)), RouteOf);
  }

  /** When `exec` finds nothing the loop ends, with no route left to push. */
  lemma ParsedEnd(s: string, from: nat)
    requires from <= |s| && Exec(s, from, false).None?
    ensures Project(Captures(s, AllMatches(s, from, false)), RouteOf) == []
  {
    ExecStep(s, from, false);
  }

  /** Every parsed method is one of the five verbs, upper-cased, and every path is its original path. */
  lemma ParsedMethods(s: string)
    ensures forall r :: r in Parsed(s) ==> r.httpMethod in UpperVerbs && r.path == r.originalPath
  {
    CapturedVerbs(s, 0, false);
    var cs := Captures(s, AllMatches(s, 0, false));
    forall r | r in Parsed(s)
      ensures r.httpMethod in UpperVerbs
    {
      var i :| 0 <= i < |cs| && Parsed(s)[i] == r;
      assert cs[i] in cs;
      UpperOfVerb(cs[i].0);
    }
  }

  /**
   * `convertPathToNextJS`: the first `/api/` anywhere is removed, every
   * `:name` becomes `[name]`, and when a `*` remains, everything from it on
   * becomes `[...slug]`.
   */
  function ConvertPathToNextJS(expressPath: string): (r: string)
    ensures !Contains(expressPath, ApiPrefix) && ':' !in expressPath && '*' !in expressPath ==> r == expressPath
  {
    IncludesChar(ParamsToBrackets(RemoveFirstApi(expressPath)), '*');
    var nextPath := ParamsToBrackets(RemoveFirstApi(expressPath));
    if Includes(nextPath, "*") then StarToSlug(nextPath) else nextPath
  }

  /** A path under `/api/` with no parameter and no `*` converts to itself without the prefix. */
  lemma ConvertPlain(x: string)
    requires ':' !in x && '*' !in x
    ensures ConvertPathToNextJS(ApiPrefix + x) == x
  {
    RemoveFirstApiAtStart(x);
    IncludesChar(x, '*');
  }

  /**
   * Turning the brackets back into parameters recovers the Express path
   * without its prefix: the conversion loses nothing on paths without `*`.
   */
  lemma ConvertRoundTrip(x: string)
    requires '[' !in x && ']' !in x && '*' !in x
    ensures BracketsToParams(ConvertPathToNextJS(ApiPrefix + x)) == x
  {
    RemoveFirstApiAtStart(x);
    ParamsToBracketsAdds(x, '*');
    IncludesChar(ParamsToBrackets(x), '*');
    BracketsParamsRoundTrip(x);
  }

  /** With a `*`, the converted path is cut at the first one and ends in the catch-all `[...slug]`. */
  lemma ConvertStar(x: string, k: nat)
    requires var n := ParamsToBrackets(x);
      k < |n| && n[k] == '*' && '*' !in n[..k] && SingleLine(n)
    ensures ConvertPathToNextJS(ApiPrefix + x) == ParamsToBrackets(x)[..k] + "[...slug]"
  {
    RemoveFirstApiAtStart(x);
    IncludesChar(ParamsToBrackets(x), '*');
    StarToSlugFirst(ParamsToBrackets(x), k);
  }

  /** The service classes the generated files import. */
  datatype Service = ProjectService | WorkerService

  /**
   * `getServiceCall`'s result: a call of `operation` on a service, or the
   * placeholder that throws "not implemented"; `hasParams` decides whether
   * the handlers take `{ params }`.
   */
  datatype ServiceCall =
    | Call(service: Service, operation: string, hasParams: bool)
    | Placeholder(path: string, hasParams: bool)

  /** The operations whose generated code reads `params.id`. */
  predicate UsesParams(c: ServiceCall) {
    c.Call? && c.operation in {"getProjectById", "updateProject", "deleteProject"}
  }

  /** The operations whose generated code passes `body`. */
  predicate UsesBody(c: ServiceCall) {
    c.Call? && c.operation in {"createProject", "updateProject", "createWorker"}
  }

  /** `getServiceCall(path, method)`: the first rule of the chain that applies. */
  function GetServiceCall(path: string, m: string): (r: ServiceCall)
    ensures UsesParams(r) ==> r.hasParams
    ensures UsesBody(r) ==> m in {"POST", "PUT", "PATCH"}
  {
    if Includes(path, "/projects") && !Includes(path, ":") && m == "GET" && Includes(path, "with-stats") then
      Call(ProjectService, "getProjectsWithStats", false)
    else if Includes(path, "/projects") && !Includes(path, ":") && m == "GET" then
      Call(ProjectService, "getAllProjects", false)
    else if Includes(path, "/projects") && !Includes(path, ":") && m == "POST" then
      Call(ProjectService, "createProject", false)
    else if Includes(path, "/projects/:id") && m == "GET" then
      Call(ProjectService, "getProjectById", true)
    else if Includes(path, "/projects/:id") && (m == "PUT" || m == "PATCH") then
      Call(ProjectService, "updateProject", true)
    else if Includes(path, "/projects/:id") && m == "DELETE" then
      Call(ProjectService, "deleteProject", true)
    else if Includes(path, "/workers") && !Includes(path, ":") && m == "GET" then
      Call(WorkerService, "getAllWorkers", false)
    else if Includes(path, "/workers") && !Includes(path, ":") && m == "POST" then
      Call(WorkerService, "createWorker", false)
    else
      Placeholder(path, Includes(path, ":"))
  }

  /** Every rule agrees with the fallback's test: the handlers take `{ params }` exactly when the path has a `:`. */
  lemma HasParamsIffColon(path: string, m: string)
    ensures GetServiceCall(path, m).hasParams <==> ':' in path
  {
    IncludesChar(path, ':');
    if Includes(path, "/projects/:id") {
      IncludesHolds(path, "/projects/:id", ':');
    }
  }

  /** A parameterless `/projects` path: GET lists (with statistics when asked), POST creates. */
  lemma ProjectsRules(path: string)
    requires Includes(path, "/projects") && ':' !in path
    ensures GetServiceCall(path, "GET") == Call(ProjectService,
      if Includes(path, "with-stats") then "getProjectsWithStats" else "getAllProjects", false)
    ensures GetServiceCall(path, "POST") == Call(ProjectService, "createProject", false)
  {
    IncludesChar(path, ':');
  }

  /** A `/projects/:id` path: GET reads, PUT and PATCH update, DELETE deletes. */
  lemma ProjectByIdRules(path: string)
    requires Includes(path, "/projects/:id")
    ensures GetServiceCall(path, "GET") == Call(ProjectService, "getProjectById", true)
    ensures GetServiceCall(path, "PUT") == GetServiceCall(path, "PATCH") == Call(ProjectService, "updateProject", true)
    ensures GetServiceCall(path, "DELETE") == Call(ProjectService, "deleteProject", true)
  {
    IncludesHolds(path, "/projects/:id", ':');
    IncludesChar(path, ':');
  }

  /** A parameterless `/workers` path (not under `/projects`): GET lists, POST creates. */
  lemma WorkersRules(path: string)
    requires Includes(path, "/workers") && !Includes(path, "/projects") && ':' !in path
    ensures GetServiceCall(path, "GET") == Call(WorkerService, "getAllWorkers", false)
    ensures GetServiceCall(path, "POST") == Call(WorkerService, "createWorker", false)
  {
    IncludesChar(path, ':');
    ProjectIdUnderProjects(path);
  }

  /** A path that includes `/projects/:id` includes `/projects`. */
  lemma ProjectIdUnderProjects(path: string)
    ensures Includes(path, "/projects/:id") ==> Includes(path, "/projects")
  {
    if Includes(path, "/projects/:id") {
      var i: nat :| OccursAt(path, "/projects/:id", i);
      assert path[i..i + 9] == path[i..i + 13][..9] == "/projects";
      assert OccursAt(path, "/projects", i);
    }
  }

  /** Outside those rules, the placeholder: it names the path and takes `{ params }` exactly when the path has a `:`. */
  lemma FallbackRule(path: string, m: string)
    requires !Includes(path, "/projects") && !Includes(path, "/workers")
    ensures GetServiceCall(path, m) == Placeholder(path, ':' in path)
  {
    IncludesChar(path, ':');
    ProjectIdUnderProjects(path);
  }

  /** One exported handler of a generated file. */
  datatype Block = Block(verb: string, takesParams: bool, readsBody: bool, call: ServiceCall)

  /** A generated file: the route it came from, its service call and its handlers. */
  datatype NextRoute = NextRoute(httpMethod: string, path: string, call: ServiceCall, blocks: seq<Block>)

  /** The methods `generateNextJSRoute` has a handler template for. */
  const Emitted: seq<string> := ["GET", "POST", "PUT", "DELETE"]

  /** `${method === verb ? `export async function verb(...)` : ''}`. */
  function BlockIf(verb: string, m: string, call: ServiceCall, readsBody: bool): seq<Block> {
    if m == verb then [Block(verb, call.hasParams, readsBody, call)] else []
  }

  /** `generateNextJSRoute`: the four conditional templates, of which POST and PUT read the body. */
  function GenerateNextJSRoute(route: ExpressRoute): (r: NextRoute)
    ensures r.httpMethod == route.httpMethod && r.path == route.path
    ensures r.call == GetServiceCall(route.path, route.httpMethod)
    ensures |r.blocks| <= 1
    ensures r.blocks != [] <==> route.httpMethod in Emitted
    ensures forall b :: b in r.blocks ==>
      (b.verb == route.httpMethod && b.call == r.call
       && b.takesParams == r.call.hasParams && (b.readsBody <==> b.verb in {"POST", "PUT"}))
  {
    var m := route.httpMethod;
    var call := GetServiceCall(route.path, m);
    NextRoute(m, route.path, call,
      BlockIf("GET", m, call, false) + BlockIf("POST", m, call, true)
      + BlockIf("PUT", m, call, true) + BlockIf("DELETE", m, call, false))
  }

  /**
   * The handlers of a generated file are well scoped: one that calls code
   * reading `params.id` takes `{ params }`, and one that calls code passing
   * `body` reads it first.
   */
  lemma GeneratedHandlersScoped(route: ExpressRoute)
    ensures forall b :: b in GenerateNextJSRoute(route).blocks ==>
      (UsesParams(b.call) ==> b.takesParams) && (UsesBody(b.call) ==> b.readsBody)
  {
  }

  /** A PATCH route gets the update call but no handler: its file exports nothing. */
  lemma PatchEmitsNothing(path: string)
    requires Includes(path, "/projects/:id")
    ensures var r := GenerateNextJSRoute(ExpressRoute("PATCH", path, path));
      r.call == Call(ProjectService, "updateProject", true) && r.blocks == []
  {
    ProjectByIdRules(path);
  }

  /** The `skipList` of the conversion. */
  const SkipList: seq<string> := ["/mobile*", "/api/health"]

  /**
   * `skipList.some(skip => route.path.includes(skip.replace('*', '')))`:
   * the paths that include `/mobile` or `/api/health` are passed over.
   */
  predicate Skipped(path: string): (b: bool)
    ensures b <==> Includes(path, "/mobile") || Includes(path, "/api/health")
  {
    var mobile, health := "/mobile", "/api/health";
    assert SkipList[0] == mobile + "*";
    assert SkipList == [mobile + "*", health];
    SkippedBy(path, SkipList, mobile, health);
    exists i :: 0 <= i < |SkipList| && Includes(path, RemoveFirst(SkipList[i], '*'))
  }

  /** A list of a `*`-pattern and a plain one skips the paths that include either, without the `*`. */
  lemma SkippedBy(path: string, list: seq<string>, a: string, b: string)
    requires '*' !in a && '*' !in b && list == [a + "*", b]
    ensures (exists i :: 0 <= i < |list| && Includes(path, RemoveFirst(list[i], '*')))
      <==> Includes(path, a) || Includes(path, b)
  {
    RemoveStarAfter(a);
    assert RemoveFirst(list[0], '*') == a && RemoveFirst(list[1], '*') == b;
  }

  /** A written route file: where, for which route, with what content. */
  datatype Output = Output(file: string, route: ExpressRoute, content: NextRoute)

  /** The state of a run: the files written so far, in order, and the files that exist. */
  datatype Conversion = Conversion(outputs: seq<Output>, files: set<string>)

  /** One turn of the loop: skipped routes and existing files change nothing, otherwise the file is written. */
  function Step(c: Conversion, route: ExpressRoute): (r: Conversion)
    ensures r == c <==> Skipped(route.path) || RouteFile(ConvertPathToNextJS(route.path)) in c.files
    ensures r != c ==> var file := RouteFile(ConvertPathToNextJS(route.path));
      r.outputs == c.outputs + [Output(file, route, GenerateNextJSRoute(route))] && r.files == c.files + {file}
  {
    if Skipped(route.path) then c
    else
      var file := RouteFile(ConvertPathToNextJS(route.path));
      if file in c.files then c
      else Conversion(c.outputs + [Output(file, route, GenerateNextJSRoute(route))], c.files + {file})
  }

  /** The loop over `routes`, starting from the files in `existing`. */
  function ConvertAll(routes: seq<ExpressRoute>, existing: set<string>): (r: Conversion)
    ensures existing <= r.files && |r.outputs| <= |routes|
  {
    if routes == [] then Conversion([], existing)
    else Step(ConvertAll(routes[..|routes| - 1], existing), routes[|routes| - 1])
  }

  /**
   * `convertExpressToNextJS`, given the routes file (`None` when it cannot be
   * read, which is the error path) and the files that exist: on success,
   * the files written in order, the files that exist afterwards and the
   * `converted` count.
   */
  method ConvertExpressToNextJS(routesFile: Option<string>, existing: set<string>)
    returns (ok: bool, outputs: seq<Output>, files: set<string>, converted: nat)
    ensures ok <==> routesFile.Some?
    ensures !ok ==> outputs == [] && files == existing && converted == 0
    ensures ok ==>
      (converted == |outputs| && Conversion(outputs, files) == ConvertAll(Parsed(routesFile.value), existing))
  {
    if routesFile.None? {
      return false, [], existing, 0;
    }
    var routes := ParseExpressRoutes(routesFile.value);
    outputs, files, converted := [], existing, 0;
    for i := 0 to |routes|
      invariant converted == |outputs|
      invariant Conversion(outputs, files) == ConvertAll(routes[..i], existing)
    {
      assert routes[..i + 1][..i] == routes[..i];
      var route := routes[i];
      if Skipped(route.path) {
        continue;
      }
      var nextPath := ConvertPathToNextJS(route.path);
      var routeFile := RouteFile(nextPath);
      if routeFile in files {
        continue;
      }
      var routeContent := GenerateNextJSRoute(route);
      outputs := outputs + [Output(routeFile, route, routeContent)];
      files := files + {routeFile};
      converted := converted + 1;
    }
    assert routes[..|routes|] == routes;
    ok := true;
  }

  /** The files of a sequence of outputs. */
  function FilesOf(outputs: seq<Output>): set<string> {
    set o | o in outputs :: o.file
  }

  /**
   * The files of a run: no existing file is overwritten, no file is written
   * twice, and the files that exist afterwards are the old ones plus those
   * written, at most one per route.
   */
  predicate NoOverwrite(c: Conversion, routes: seq<ExpressRoute>, existing: set<string>) {
    && |c.outputs| <= |routes|
    && c.files == existing + FilesOf(c.outputs)
    && (forall i :: 0 <= i < |c.outputs| ==> c.outputs[i].file !in existing)
    && (forall i, j :: 0 <= i < j < |c.outputs| ==> c.outputs[i].file != c.outputs[j].file)
  }

  /** Each output is the generated content of an unskipped route of the run, at that route's file. */
  predicate Announced(c: Conversion, routes: seq<ExpressRoute>) {
    forall o :: o in c.outputs ==>
      && o.route in routes && !Skipped(o.route.path)
      && o.file == RouteFile(ConvertPathToNextJS(o.route.path))
      && o.content == GenerateNextJSRoute(o.route)
  }

  /** The loop never overwrites a file, never writes one twice, and counts what it writes. */
  lemma {:induction false} ConvertAllNoOverwrite(routes: seq<ExpressRoute>, existing: set<string>)
    ensures NoOverwrite(ConvertAll(routes, existing), routes, existing)
  {
    if routes != [] {
      var init, last := routes[..|routes| - 1], routes[|routes| - 1];
      var c := ConvertAll(init, existing);
      assert ConvertAll(routes, existing) == Step(c, last);
      ConvertAllNoOverwrite(init, existing);
      StepNoOverwrite(c, init, last, existing);
      assert init + [last] == routes;
    }
  }

  lemma StepNoOverwrite(c: Conversion, init: seq<ExpressRoute>, route: ExpressRoute, existing: set<string>)
    requires NoOverwrite(c, init, existing)
    ensures NoOverwrite(Step(c, route), init + [route], existing)
  {
    if !Skipped(route.path) {
      var file := RouteFile(ConvertPathToNextJS(route.path));
      if file !in c.files {
        WriteNoOverwrite(c, init, route, file, GenerateNextJSRoute(route), existing);
      }
    }
  }

  /** Writing a file that does not exist keeps the files of the run apart from each other and from the old ones. */
  lemma WriteNoOverwrite(c: Conversion, init: seq<ExpressRoute>, route: ExpressRoute, file: string, content: NextRoute, existing: set<string>)
    requires NoOverwrite(c, init, existing) && file !in c.files
    ensures NoOverwrite(Conversion(c.outputs + [Output(file, route, content)], c.files + {file}), init + [route], existing)
  {
    var outs := c.outputs + [Output(file, route, content)];
    assert FilesOf(outs) == FilesOf(c.outputs) + {file};
    forall i, j | 0 <= i < j < |outs|
      ensures outs[i].file != outs[j].file
    {
      if j == |c.outputs| {
        assert c.outputs[i] in c.outputs;
      }
    }
  }

  /** The loop writes only what it announces. */
  lemma {:induction false} ConvertAllAnnounced(routes: seq<ExpressRoute>, existing: set<string>)
    ensures Announced(ConvertAll(routes, existing), routes)
  {
    if routes != [] {
      var init := routes[..|routes| - 1];
      ConvertAllAnnounced(init, existing);
      assert forall r :: r in init ==> r in routes;
    }
  }

  /** Afterwards, every route that is not skipped has its route file: it existed or was written. */
  lemma {:induction false} ConvertAllCovers(routes: seq<ExpressRoute>, existing: set<string>)
    ensures var c := ConvertAll(routes, existing);
      existing <= c.files
      && forall r :: r in routes && !Skipped(r.path) ==> RouteFile(ConvertPathToNextJS(r.path)) in c.files
  {
    if routes != [] {
      var init := routes[..|routes| - 1];
      ConvertAllCovers(init, existing);
      assert forall r :: r in routes ==> r in init || r == routes[|routes| - 1];
    }
  }

  /** With the corrected placement, two routes with different App Router paths never compete for a file. */
  lemma DistinctPathsDistinctFiles(r1: ExpressRoute, r2: ExpressRoute)
    requires NodePath.Clean(ConvertPathToNextJS(r1.path)) && NodePath.Clean(ConvertPathToNextJS(r2.path))
    requires ConvertPathToNextJS(r1.path) != ConvertPathToNextJS(r2.path)
    ensures RouteFile(ConvertPathToNextJS(r1.path)) != RouteFile(ConvertPathToNextJS(r2.path))
  {
    if RouteFile(ConvertPathToNextJS(r1.path)) == RouteFile(ConvertPathToNextJS(r2.path)) {
      RouteFileInjective(ConvertPathToNextJS(r1.path), ConvertPathToNextJS(r2.path));
    }
  }
}
