/**
 * The generation half that `smart-vercel-bridge.ts` and `generate-api.js`
 * share line for line: the `exec` loop that extracts routes with the spaced
 * pattern and strips a leading `/api/`, the map of method sets keyed by the
 * group key, and the loop that writes one route file per group.
 */
module BridgeRoutes {
  import opened Wrappers
  import opened Text
  import opened Seqs
  import opened RouteScan
  import opened Paths
  import opened Grouping
  import opened AppLayout

  /** `{ method: method.toUpperCase(), path: apiPath }`. */
  datatype ApiRoute = ApiRoute(httpMethod: string, path: string)

  /** The route pushed for a captured (verb, path) pair. */
  function RouteOf(c: (string, string)): ApiRoute {
    ApiRoute(ToUpper(c.0), StripApiPrefix(c.1))
  }

  /** The routes the extraction loop pushes for a routes file, in order. */
  function Extracted(s: string): seq<ApiRoute> {
    Project(Captures(s, AllMatches(s, 0, true)), RouteOf)
  }

  /** `while ((match = routePattern.exec(routesContent)) !== null) routes.push(...)`. */
  method ExtractRoutes(s: string) returns (routes: seq<ApiRoute>)
    ensures routes == Extracted(s)
  {
    routes := [];
    var lastIndex := 0;
    while true
      invariant lastIndex <= |s|
      invariant routes + Project(Captures(s, AllMatches(s, lastIndex, true)), RouteOf) == Extracted(s)
      decreases |s| - lastIndex
    {
      var found := Exec(s, lastIndex, true);
      if found.None? {
        ExtractEnd(s, lastIndex);
        break;
      }
      var m := found.value.1;
      ExtractStep(s, lastIndex, m);
      var (verb, fullPath) := Capture(s, m);
      routes := routes + [ApiRoute(ToUpper(verb), StripApiPrefix(fullPath))];
      lastIndex := m.End();
    }
  }

  /** One turn of the loop: the match `exec` finds gives the next route, and the scan resumes at its end. */
  lemma ExtractStep(s: string, from: nat, m: Match)
    requires from <= |s| && Exec(s, from, true).Some? && Exec(s, from, true).value.1 == m
    ensures from < m.End() <= |s|
    ensures Project(Captures(s, AllMatches(s, from, true)), RouteOf)
      == [RouteOf(Capture(s, m))] + Project(Captures(s, AllMatches(s, m.End(), true)), RouteOf)
  {
    ExecStep(s, from, true);
    CapturesStep(s, from, true, m);
    ProjectCons(Capture(s, m), Captures(s, AllMatches(s, m.End(), true)), RouteOf);
  }

  /** When `exec` finds nothing the loop ends, with no route left to push. */
  lemma ExtractEnd(s: string, from: nat)
    requires from <= |s| && Exec(s, from, true).None?
    ensures Project(Captures(s, AllMatches(s, from, true)), RouteOf) == []
  {
    ExecStep(s, from, true);
  }

  /** Every extracted method is one of the five verbs, upper-cased. */
  lemma ExtractedMethods(s: string)
    ensures forall r :: r in Extracted(s) ==> r.httpMethod in UpperVerbs
  {
    CapturedVerbs(s, 0, true);
    var cs := Captures(s, AllMatches(s, 0, true));
    forall r | r in Extracted(s)
      ensures r.httpMethod in UpperVerbs
    {
      var i :| 0 <= i < |cs| && Extracted(s)[i] == r;
      assert cs[i] in cs;
      UpperOfVerb(cs[i].0);
    }
  }

  /**
   * A routes file written one declaration per line yields one route per
   * declaration, in order, with the verb upper-cased and `/api/` stripped.
   */
  lemma ExtractedRendered(ds: seq<Declaration>)
    requires forall d :: d in ds ==> WellFormed(d)
    ensures Extracted(RenderAll(ds)) == Project(Written(ds), RouteOf)
  {
    ScanRendered(ds, true);
  }

  /** The map key of a route: `/:x` segments to `/[id]`, one trailing `/` off, `''` to `index`. */
  function RouteKey(r: ApiRoute): string {
    GroupKey(r.path)
  }

  function RouteMethod(r: ApiRoute): string {
    r.httpMethod
  }

  /** `routePath === 'index' ? ['index'] : routePath.split('/')`. */
  function PathParts(key: string): seq<string> {
    if key == "index" then ["index"] else Split(key, '/')
  }

  /** The special case for `index` changes nothing: the parts are always the split key. */
  lemma PathPartsIsSplit(key: string)
    ensures PathParts(key) == Split(key, '/')
  {
    if key == "index" {
      IndexOfAbsent("index", '/');
    }
  }

  /** A written route file: where it goes, its group, the handlers it exports and the path it looks up. */
  datatype GeneratedRoute = GeneratedRoute(file: string, key: string, methods: seq<string>, fullApiPath: string)

  /** The file written for group `key`: its place under `api/`, its handlers, and the path it looks up. */
  function RouteFor(key: string, methods: seq<string>, fileName: string): GeneratedRoute {
    GeneratedRoute(ApiFile(PathParts(key), fileName), key, methods, FullApiPath(key))
  }

  /** `pathGroups.forEach(...)`: one file per group, in key order, counted by `fileCount`. */
  method WriteRouteFiles(keys: seq<string>, sets: map<string, seq<string>>, fileName: string)
    returns (written: seq<GeneratedRoute>, fileCount: nat)
    requires forall k :: k in keys ==> k in sets
    ensures fileCount == |written| == |keys|
    ensures forall i :: 0 <= i < |keys| ==> written[i] == RouteFor(keys[i], sets[keys[i]], fileName)
  {
    written, fileCount := ForEachGroup(keys, k => RouteFor(k, if k in sets then sets[k] else [], fileName));
  }

  /** The `forEach` over the groups: the file of each key in turn, and the count of files written. */
  method ForEachGroup(keys: seq<string>, file: string -> GeneratedRoute)
    returns (written: seq<GeneratedRoute>, fileCount: nat)
    ensures fileCount == |written| == |keys|
    ensures forall i :: 0 <= i < |keys| ==> written[i] == file(keys[i])
  {
    written, fileCount := [], 0;
    for i := 0 to |keys|
      invariant fileCount == |written| == i
      invariant forall j :: 0 <= j < i ==> written[j] == file(keys[j])
    {
      written := written + [file(keys[i])];
      fileCount := fileCount + 1;
    }
  }

  /**
   * The whole generation: extract, group into method sets, write one file
   * per group. Every group gets exactly one file, in first-seen order, and a
   * file exports one handler per distinct method of its group.
   */
  method Generate(s: string, fileName: string) returns (written: seq<GeneratedRoute>, fileCount: nat)
    ensures var routes := Extracted(s);
      && fileCount == |written| == |Keys(routes, RouteKey)|
      && forall i :: 0 <= i < |written| ==>
        && written[i].key == Keys(routes, RouteKey)[i]
        && written[i] == RouteFor(written[i].key, MemberSet(routes, RouteKey, RouteMethod, written[i].key), fileName)
  {
    var routes := ExtractRoutes(s);
    var keys, sets := GroupSets(routes, RouteKey, RouteMethod);
    written, fileCount := WriteRouteFiles(keys, sets, fileName);
  }

  /** A group's method list holds exactly the methods of the routes with that key. */
  lemma GroupMethods(routes: seq<ApiRoute>, key: string, m: string)
    ensures m in MemberSet(routes, RouteKey, RouteMethod, key)
      <==> exists i :: 0 <= i < |routes| && RouteKey(routes[i]) == key && routes[i].httpMethod == m
  {
    if m in MemberSet(routes, RouteKey, RouteMethod, key) {
      MethodHasRoute(routes, key, m);
    }
    if exists i :: 0 <= i < |routes| && RouteKey(routes[i]) == key && routes[i].httpMethod == m {
      var i :| 0 <= i < |routes| && RouteKey(routes[i]) == key && routes[i].httpMethod == m;
      RouteHasMethod(routes, i);
    }
  }

  lemma MethodHasRoute(routes: seq<ApiRoute>, key: string, m: string)
    requires m in MemberSet(routes, RouteKey, RouteMethod, key)
    ensures exists i :: 0 <= i < |routes| && RouteKey(routes[i]) == key && routes[i].httpMethod == m
  {
    var ms := Members(routes, RouteKey, key);
    var p := Project(ms, RouteMethod);
    assert m in p;
    var j :| 0 <= j < |p| && p[j] == m;
    assert ms[j] in ms;
    var i :| 0 <= i < |routes| && routes[i] == ms[j];
    assert RouteKey(routes[i]) == key && routes[i].httpMethod == m;
  }

  lemma RouteHasMethod(routes: seq<ApiRoute>, i: nat)
    requires i < |routes|
    ensures routes[i].httpMethod in MemberSet(routes, RouteKey, RouteMethod, RouteKey(routes[i]))
  {
    var key := RouteKey(routes[i]);
    MemberOfOwnKey(routes, RouteKey, i);
    var ms := Members(routes, RouteKey, key);
    var j :| 0 <= j < |ms| && ms[j] == routes[i];
    assert Project(ms, RouteMethod)[j] == routes[i].httpMethod;
  }
}
