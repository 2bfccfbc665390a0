/**
 * `complete-conversion.ts`: a fixed table of fifteen API routes, each turned
 * into an App Router path and a `route.ts` whose handlers are placeholders
 * (one per method of the entry, in table order), written only where no file
 * exists yet.
 *
 * The file system is the set of files that exist. The route file is placed
 * with the corrected `app/api/<nextPath>/route.ts`; the `dirname` placement
 * of the script is `AppLayout.RouteFileAsWritten`, and the lemmas at the end
 * show what it does to this table.
 */
module CompleteConversion {
  import opened Text
  import opened Paths
  import opened NodePath
  import opened AppLayout
  import opened Grouping

  /** An entry of `NEXTJS_ROUTES`. */
  datatype TableRoute = TableRoute(path: string, methods: seq<string>, service: string)

  /** The groups of `NEXTJS_ROUTES`, in table order: projects, workers, fund transfers, materials, suppliers. */
  const ProjectRoutes: seq<TableRoute> := [
    TableRoute("/api/projects", ["GET", "POST"], "ProjectService"),
    TableRoute("/api/projects/:id", ["GET", "PUT", "PATCH", "DELETE"], "ProjectService"),
    TableRoute("/api/projects/:id/stats", ["GET"], "ProjectService")
  ]

  const WorkerRoutes: seq<TableRoute> := [
    TableRoute("/api/workers", ["GET", "POST"], "WorkerService"),
    TableRoute("/api/workers/:id", ["PUT", "PATCH", "DELETE"], "WorkerService"),
    TableRoute("/api/worker-types", ["GET", "POST"], "WorkerService")
  ]

  const FundTransferRoutes: seq<TableRoute> := [
    TableRoute("/api/fund-transfers", ["GET", "POST"], "FundTransferService"),
    TableRoute("/api/fund-transfers/:id", ["PUT", "DELETE"], "FundTransferService"),
    TableRoute("/api/project-fund-transfers", ["GET", "POST"], "FundTransferService")
  ]

  const MaterialRoutes: seq<TableRoute> := [
    TableRoute("/api/materials", ["GET", "POST"], "MaterialService"),
    TableRoute("/api/material-purchases", ["GET", "POST"], "MaterialService"),
    TableRoute("/api/material-purchases/:id", ["PUT", "DELETE"], "MaterialService")
  ]

  const SupplierRoutes: seq<TableRoute> := [
    TableRoute("/api/suppliers", ["GET", "POST"], "SupplierService"),
    TableRoute("/api/suppliers/:id", ["GET", "PUT", "DELETE"], "SupplierService"),
    TableRoute("/api/supplier-payments", ["GET", "POST"], "SupplierService")
  ]

  /** `NEXTJS_ROUTES`. */
  const NextjsRoutes: seq<TableRoute> := ProjectRoutes + WorkerRoutes + FundTransferRoutes + MaterialRoutes + SupplierRoutes

  /** An API path with at least one method. */
  predicate EntryWellFormed(r: TableRoute) {
    StartsWith(r.path, ApiPrefix) && r.methods != []
  }

  /** Every entry is an API path with at least one method. */
  lemma TableWellFormed()
    ensures |NextjsRoutes| == 15
    ensures forall r :: r in NextjsRoutes ==> EntryWellFormed(r)
  {
    GroupWellFormed(ProjectRoutes);
    GroupWellFormed(WorkerRoutes);
    GroupWellFormed(FundTransferRoutes);
    GroupWellFormed(MaterialRoutes);
    GroupWellFormed(SupplierRoutes);
  }

  lemma GroupWellFormed(g: seq<TableRoute>)
    requires g in [ProjectRoutes, WorkerRoutes, FundTransferRoutes, MaterialRoutes, SupplierRoutes]
    ensures forall r :: r in g ==> EntryWellFormed(r)
  {
    forall r | r in g
      ensures StartsWith(r.path, ApiPrefix)
    {
      assert r.path[..5] == ApiPrefix;
    }
  }

  /** `convertToNextJSPath`: the leading `/api/` off, every `:name` to `[name]`. */
  function ConvertToNextJSPath(expressPath: string): (r: string)
    ensures ':' !in expressPath ==> r == StripApiPrefix(expressPath)
  {
    ParamsToBrackets(StripApiPrefix(expressPath))
  }

  /** Turning the brackets back into parameters gives the path without its prefix. */
  lemma ConvertRoundTrip(x: string)
    requires '[' !in x && ']' !in x
    ensures BracketsToParams(ConvertToNextJSPath(ApiPrefix + x)) == x
  {
    StripApiPrefixAdded(x);
    BracketsParamsRoundTrip(x);
  }

  /** Only a leading `/api/` is removed: one further in stays. */
  lemma ConvertKeepsInnerApi(x: string)
    requires !StartsWith(x, ApiPrefix) && ':' !in x
    ensures ConvertToNextJSPath(x) == x
  {
  }

  /** One exported handler of a generated file. */
  datatype Handler = Handler(verb: string, takesParams: bool, readsBody: bool)

  /** A generated file: the path and service it names, whether it declares `RouteParams`, and its handlers. */
  datatype RouteContent = RouteContent(path: string, service: string, paramsInterface: bool, handlers: seq<Handler>)

  /** The methods whose handler starts with `const body = await request.json()`. */
  const BodyMethods: seq<string> := ["POST", "PUT", "PATCH"]

  /**
   * `generateRouteContent`: one handler per method of the entry, in order;
   * with a `:` in the path, every handler takes `{ params }` and the file
   * declares `RouteParams`; only POST, PUT and PATCH read the body.
   */
  method GenerateRouteContent(route: TableRoute) returns (content: RouteContent)
    ensures content.path == route.path && content.service == route.service
    ensures content.paramsInterface <==> ':' in route.path
    ensures |content.handlers| == |route.methods|
    ensures forall i :: 0 <= i < |route.methods| ==>
      && content.handlers[i].verb == route.methods[i]
      && (content.handlers[i].takesParams <==> ':' in route.path)
      && (content.handlers[i].readsBody <==> route.methods[i] in BodyMethods)
  {
    var hasParams := Includes(route.path, ":");
    IncludesChar(route.path, ':');
    var methodHandlers: seq<Handler> := [];
    for i := 0 to |route.methods|
      invariant |methodHandlers| == i
      invariant forall j :: 0 <= j < i ==>
        methodHandlers[j] == Handler(route.methods[j], hasParams, route.methods[j] in BodyMethods)
    {
      var m := route.methods[i];
      var bodyPart := m in BodyMethods;
      methodHandlers := methodHandlers + [Handler(m, hasParams, bodyPart)];
    }
    content := RouteContent(route.path, route.service, hasParams, methodHandlers);
  }

  /** The state of a run: the file written and the entry path it was written for, in order, and the files that exist. */
  datatype Structure = Structure(created: seq<(string, string)>, files: set<string>)

  /** The file an entry goes to. */
  function TargetFile(route: TableRoute): string {
    RouteFile(ConvertToNextJSPath(route.path))
  }

  /** The file the script puts an entry in, with the `dirname` placement. */
  function TargetFileAsWritten(route: TableRoute): string {
    RouteFileAsWritten(ConvertToNextJSPath(route.path))
  }

  /**
   * One turn of the loop, with `target` placing each entry: an entry whose
   * file exists is passed over, otherwise its file is written.
   */
  function Place(s: Structure, route: TableRoute, target: TableRoute -> string): (r: Structure)
    ensures r == s <==> target(route) in s.files
    ensures r != s ==> r.created == s.created + [(target(route), route.path)] && r.files == s.files + {target(route)}
  {
    var file := target(route);
    if file in s.files then s
    else Structure(s.created + [(file, route.path)], s.files + {file})
  }

  /** The loop over `routes` from the files in `existing`. */
  function Create(routes: seq<TableRoute>, existing: set<string>, target: TableRoute -> string): (r: Structure)
    ensures existing <= r.files && |r.created| <= |routes|
  {
    if routes == [] then Structure([], existing)
    else Place(Create(routes[..|routes| - 1], existing, target), routes[|routes| - 1], target)
  }

  /** Each written file with the path its content names. */
  function Named(written: seq<(string, RouteContent)>): seq<(string, string)> {
    Project(written, (w: (string, RouteContent)) => (w.0, w.1.path))
  }

  lemma NamedAppend(written: seq<(string, RouteContent)>, w: (string, RouteContent))
    ensures Named(written + [w]) == Named(written) + [(w.0, w.1.path)]
  {
    assert Named(written + [w])[|written|] == (w.0, w.1.path);
    assert forall i :: 0 <= i < |written| ==> Named(written + [w])[i] == Named(written)[i];
  }

  /** The run over one more entry places that entry after the others. */
  lemma CreateLast(routes: seq<TableRoute>, i: nat, existing: set<string>, target: TableRoute -> string)
    requires i < |routes|
    ensures Create(routes[..i + 1], existing, target) == Place(Create(routes[..i], existing, target), routes[i], target)
  {
    assert routes[..i + 1][..i] == routes[..i];
  }

  /** Writing an entry's file with content for its path is the step `Place` takes. */
  lemma PlaceWritten(s: Structure, written: seq<(string, RouteContent)>, files: set<string>, route: TableRoute,
                     content: RouteContent, target: TableRoute -> string)
    requires Structure(Named(written), files) == s && target(route) !in files && content.path == route.path
    ensures Structure(Named(written + [(target(route), content)]), files + {target(route)}) == Place(s, route, target)
  {
    NamedAppend(written, (target(route), content));
  }

  /**
   * The loop of `createNextJSStructure` over the entries `routes` and the
   * files that exist: the files written, in order, with their content, the
   * files that exist afterwards, and the `createdRoutes` count.
   */
  method CreateRoutes(routes: seq<TableRoute>, existing: set<string>)
    returns (written: seq<(string, RouteContent)>, files: set<string>, createdRoutes: nat)
    ensures createdRoutes == |written| <= |routes|
    ensures Structure(Named(written), files) == Create(routes, existing, TargetFile)
  {
    written, files, createdRoutes := [], existing, 0;
    for i := 0 to |routes|
      invariant createdRoutes == |written| <= i
      invariant Structure(Named(written), files) == Create(routes[..i], existing, TargetFile)
    {
      var route := routes[i];
      CreateLast(routes, i, existing, TargetFile);
      var nextPath := ConvertToNextJSPath(route.path);
      var routeFile := RouteFile(nextPath);
      if routeFile in files {
        continue;
      }
      var routeContent := GenerateRouteContent(route);
      PlaceWritten(Create(routes[..i], existing, TargetFile), written, files, route, routeContent, TargetFile);
      written := written + [(routeFile, routeContent)];
      files := files + {routeFile};
      createdRoutes := createdRoutes + 1;
    }
    assert routes[..|routes|] == routes;
  }

  /** `createNextJSStructure`: the loop over `NEXTJS_ROUTES`; at most fifteen files are created. */
  method CreateNextJSStructure(existing: set<string>)
    returns (written: seq<(string, RouteContent)>, files: set<string>, createdRoutes: nat)
    ensures createdRoutes == |written| <= 15
    ensures forall i :: 0 <= i < |written| ==> written[i].0 !in existing
  {
    written, files, createdRoutes := CreateRoutes(NextjsRoutes, existing);
    CreateNoOverwrite(NextjsRoutes, existing, TargetFile);
    assert forall i :: 0 <= i < |written| ==> Named(written)[i].0 == written[i].0;
  }

  /**
   * The files of a run: none is written twice, none that existed is
   * written, and the files afterwards are the old ones plus those written.
   */
  predicate NoOverwrite(s: Structure, existing: set<string>) {
    && existing <= s.files
    && (forall i :: 0 <= i < |s.created| ==> s.created[i].0 !in existing && s.created[i].0 in s.files)
    && (forall i, j :: 0 <= i < j < |s.created| ==> s.created[i].0 != s.created[j].0)
  }

  /** The run never overwrites a file and never writes one twice. */
  lemma {:induction false} CreateNoOverwrite(routes: seq<TableRoute>, existing: set<string>, target: TableRoute -> string)
    ensures NoOverwrite(Create(routes, existing, target), existing)
  {
    if routes != [] {
      var init := routes[..|routes| - 1];
      CreateNoOverwrite(init, existing, target);
      var s := Create(init, existing, target);
      var route := routes[|routes| - 1];
      if target(route) !in s.files {
        WriteNoOverwrite(s, target(route), route, existing);
      }
    }
  }

  lemma WriteNoOverwrite(s: Structure, file: string, route: TableRoute, existing: set<string>)
    requires NoOverwrite(s, existing) && file !in s.files
    ensures NoOverwrite(Structure(s.created + [(file, route.path)], s.files + {file}), existing)
  {
    var out := s.created + [(file, route.path)];
    forall i, j | 0 <= i < j < |out|
      ensures out[i].0 != out[j].0
    {
      if j == |s.created| {
        assert out[i].0 in s.files;
      }
    }
  }

  /** Afterwards every entry has its file: it existed, or this run wrote it. */
  lemma {:induction false} CreateCovers(routes: seq<TableRoute>, existing: set<string>, target: TableRoute -> string)
    ensures existing <= Create(routes, existing, target).files
    ensures forall k :: 0 <= k < |routes| ==> target(routes[k]) in Create(routes, existing, target).files
  {
    if routes != [] {
      var init := routes[..|routes| - 1];
      CreateCovers(init, existing, target);
      assert forall k :: 0 <= k < |init| ==> init[k] == routes[k];
    }
  }

  /** Two entries placed in one file: the second is passed over, and one file is written. */
  lemma SharedTargetOneWritten(r1: TableRoute, r2: TableRoute, target: TableRoute -> string)
    requires target(r1) == target(r2)
    ensures Create([r1, r2], {}, target).created == [(target(r1), r1.path)]
  {
    assert [r1, r2][..1] == [r1];
    assert [r1][..0] == [];
    assert Create([r1], {}, target) == Structure([(target(r1), r1.path)], {target(r1)});
  }

  /** Two entries placed in different files: both are written, in order. */
  lemma DistinctTargetsBothWritten(r1: TableRoute, r2: TableRoute, target: TableRoute -> string)
    requires target(r1) != target(r2)
    ensures Create([r1, r2], {}, target).created == [(target(r1), r1.path), (target(r2), r2.path)]
  {
    assert [r1, r2][..1] == [r1];
    assert [r1][..0] == [];
    assert Create([r1], {}, target) == Structure([(target(r1), r1.path)], {target(r1)});
  }

  /**
   * As written, the files of any two one-segment API paths, such as
   * `/api/projects` and `/api/workers`, are both `app/api/route.ts`: after
   * the first is written, the second is passed over.
   */
  lemma AsWrittenOneSegmentCollision(x: string, y: string)
    requires x != [] && '/' !in x && ':' !in x
    requires y != [] && '/' !in y && ':' !in y
    ensures RouteFileAsWritten(ConvertToNextJSPath(ApiPrefix + x)) == "app/api/route.ts"
    ensures RouteFileAsWritten(ConvertToNextJSPath(ApiPrefix + y)) == "app/api/route.ts"
  {
    StripApiPrefixAdded(x);
    StripApiPrefixAdded(y);
    AsWrittenOneSegment(x);
    AsWrittenOneSegment(y);
  }

  /** In the table: the entries for `/api/projects` and `/api/workers` compete for `app/api/route.ts`. */
  lemma AsWrittenTableCollision()
    ensures RouteFileAsWritten(ConvertToNextJSPath(NextjsRoutes[0].path)) == "app/api/route.ts"
    ensures RouteFileAsWritten(ConvertToNextJSPath(NextjsRoutes[3].path)) == "app/api/route.ts"
    ensures NextjsRoutes[0].path != NextjsRoutes[3].path
  {
    var x, y := "projects", "workers";
    assert NextjsRoutes[0].path == ApiPrefix + x;
    assert NextjsRoutes[3].path == ApiPrefix + y;
    AsWrittenOneSegmentCollision(x, y);
  }

  /**
   * As written, of two one-segment entries on an empty tree only the first
   * is created: the second finds `app/api/route.ts` and is passed over.
   */
  lemma AsWrittenSecondPassedOver(r1: TableRoute, r2: TableRoute, x: string, y: string)
    requires r1.path == ApiPrefix + x && x != [] && '/' !in x && ':' !in x
    requires r2.path == ApiPrefix + y && y != [] && '/' !in y && ':' !in y
    ensures Create([r1, r2], {}, TargetFileAsWritten).created == [("app/api/route.ts", r1.path)]
  {
    AsWrittenOneSegmentCollision(x, y);
    SharedTargetOneWritten(r1, r2, TargetFileAsWritten);
  }

  /** Corrected, both entries are created, each in its own file. */
  lemma CorrectedBothCreated(r1: TableRoute, r2: TableRoute)
    requires Clean(ConvertToNextJSPath(r1.path)) && Clean(ConvertToNextJSPath(r2.path))
    requires StartsWith(r1.path, ApiPrefix) && StartsWith(r2.path, ApiPrefix)
    requires '[' !in r1.path && ']' !in r1.path && '[' !in r2.path && ']' !in r2.path
    requires r1.path != r2.path
    ensures |Create([r1, r2], {}, TargetFile).created| == 2
  {
    TargetFilesApart(r1, r2);
    DistinctTargetsBothWritten(r1, r2, TargetFile);
  }

  /** Corrected, a one-segment entry `/api/x` goes to `app/api/x/route.ts`. */
  lemma OneSegmentTarget(r: TableRoute, x: string)
    requires r.path == ApiPrefix + x && x != [] && x != "." && '/' !in x && ':' !in x
    ensures TargetFile(r) == "app/api/" + x + "/route.ts"
  {
    StripApiPrefixAdded(x);
    IndexOfAbsent(x, '/');
    assert Split(x, '/') == [x];
    RouteFileOfClean(x);
  }

  /** Corrected, entries with different paths without brackets never share a file. */
  lemma TargetFilesApart(r1: TableRoute, r2: TableRoute)
    requires Clean(ConvertToNextJSPath(r1.path)) && Clean(ConvertToNextJSPath(r2.path))
    requires StartsWith(r1.path, ApiPrefix) && StartsWith(r2.path, ApiPrefix)
    requires '[' !in r1.path && ']' !in r1.path && '[' !in r2.path && ']' !in r2.path
    requires r1.path != r2.path
    ensures TargetFile(r1) != TargetFile(r2)
  {
    var x1, x2 := r1.path[5..], r2.path[5..];
    assert r1.path == ApiPrefix + x1 && r2.path == ApiPrefix + x2;
    ConvertRoundTrip(x1);
    ConvertRoundTrip(x2);
    if TargetFile(r1) == TargetFile(r2) {
      RouteFileInjective(ConvertToNextJSPath(r1.path), ConvertToNextJSPath(r2.path));
    }
  }
}
