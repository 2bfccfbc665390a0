# Express to Next.js / Vercel route translation

This project models the route-translation core of a construction-management
application (a set of Arabic-language scripts). The application keeps its
API as an Express app (`app.get("/api/projects", …)` and similar lines in a
routes file). Several generator scripts turn that app into files Next.js or
Vercel can serve. These parts are modelled:

- **Route extraction.** A scanner for `app.<verb>(<quote><path><quote>`
  declarations (module `RouteScan`). It is written for the one pattern the
  scripts use, with and without spaces before `(`, and it follows
  `RegExp.exec` with the global flag: leftmost match, then continue after the
  match. Module `VercelApiBridge` also applies it line by line.
- **Path rewriting** (module `Paths`):
  - stripping `/api/`, anchored or at its first occurrence;
  - `:name` to `[name]` and back;
  - every `/:x` to `/[id]`;
  - `*` to `[...slug]`;
  - removing a trailing slash, the `index` key, and collapsing repeated slashes.

  Module `NodePath` holds the parts of Node's `path.dirname` and `path.join`
  the scripts rely on. Module `Text` holds the JavaScript string builtins
  (`trim`, `split`, `toUpperCase`, `includes`).
- **Grouping** (module `Grouping`). Routes are grouped under a key, with keys
  in first-seen order. Each group is either an ordered list or a
  duplicate-free method set.
- **The generated handlers.** Each one scans the Express router stack for the
  first matching layer, runs its handler against a mock response, and
  otherwise answers 404. The Express side is in module `Express`. The mock
  response is a class in module `Mock`: its status starts at 200, `status`
  and `setHeader` update it, and the first `json`/`send` resolves the promise.
- **One module per script**, each in that script's own form:
  - `VercelApiBridge` (`scripts/generate-vercel-api-bridge.ts`): a generator
    class with a `routes` field.
  - `SmartVercelBridge` (`scripts/smart-vercel-bridge.ts`).
  - `GenerateApi` (`scripts/generate-api.js`).
  - `BridgeRoutes`: the extraction, grouping and file loop that
    `scripts/smart-vercel-bridge.ts` and `scripts/generate-api.js` share.
    They differ only in the file name, `route.ts` or `route.js`.
  - `NextjsRoutes` (`scripts/generate-nextjs-routes.ts`).
  - `CompleteConversion` (`scripts/complete-conversion.ts`).
  - `ApiServices` (`server/api-services/index.ts`): the response-envelope
    helpers.
- **The file system** is a set of existing file names.
- **Route layout** (module `AppLayout`): where a route file goes under
  `app/api`.

Two behaviours of the code that are easy to misread:

- **Verb matching.** The patterns have no `i` flag, so only lower-case
  `get|post|put|delete|patch` match (`RouteScan.Verbs`).
- **Handler exceptions.** A handler that throws inside the `new Promise`
  executor rejects the promise, which the `try` returns without awaiting.
  So the `catch` never sees it; the model writes the rejected promise as
  `None`.

## Model

| member | source | states |
|---|---|---|
| Text.Trim | scripts/generate-vercel-api-bridge.ts:46 | the trimmed line is a slice of the line; every character removed in front of it and behind it is JavaScript white space, and the slice neither starts nor ends with white space |
| Text.Split | scripts/generate-vercel-api-bridge.ts:43 | `split` yields at least one piece and no piece contains the separator |
| Text.JoinSplit | scripts/generate-vercel-api-bridge.ts:43 | joining the pieces of a split with the separator gives back the text |
| Text.SplitJoin | scripts/smart-vercel-bridge.ts:58 | splitting a join of separator-free pieces gives back the pieces |
| Text.ToUpper | scripts/smart-vercel-bridge.ts:27 | `toUpperCase` keeps the length and upper-cases each ASCII letter |
| Text.LowerUpper | scripts/smart-vercel-bridge.ts:172 | lower-casing an upper-cased lower-case verb gives the verb back |
| Text.Includes | scripts/generate-nextjs-routes.ts:116 | `includes` holds exactly when the text occurs at some position |
| Text.IncludesChar | scripts/generate-nextjs-routes.ts:186 | `path.includes(':')` holds exactly when `:` is a character of the path |
| Text.RemoveFirst | scripts/generate-nextjs-routes.ts:214 | `replace('*', '')` removes the first `*` and keeps everything else in order; a text without `*` is unchanged |
| Seqs.Dedup | scripts/smart-vercel-bridge.ts:44 | a `Set` in insertion order: duplicate-free, same elements as the input, no longer than it |
| Seqs.KeepFirstIsDedup | scripts/generate-vercel-api-bridge.ts:106 | `filter((m, i, arr) => arr.indexOf(m) === i)` keeps exactly the first occurrences: it is the insertion-order set |
| Seqs.DedupCard | scripts/smart-vercel-bridge.ts:44 | the set of a group's methods has as many entries as distinct methods |
| NodePath.Dirname | scripts/complete-conversion.ts:93 | `path.dirname` is `.`, `/`, `//`, or a proper prefix of the path that ends just before a `/` |
| NodePath.DirnameOfSegment | scripts/complete-conversion.ts:93 | the directory of a single segment is `.` |
| NodePath.DirnameParent | scripts/complete-conversion.ts:93 | the directory of `a/b` is `a` |
| NodePath.SegmentsOfJoin | scripts/complete-conversion.ts:93-94 | `path.join` keeps exactly the non-empty, non-`.` segments of its arguments, in order |
| NodePath.JoinOfJoin | scripts/complete-conversion.ts:93-94 | joining a joined directory with a file name is one join of all the parts |
| Paths.StripApiPrefix | scripts/smart-vercel-bridge.ts:26 | `replace(/^\/api\//, '')` changes the path exactly when it starts with `/api/`, and then leaves a suffix |
| Paths.StripApiPrefixAdded | scripts/smart-vercel-bridge.ts:26 | stripping `/api/` from `/api/` + x gives x |
| Paths.RemoveFirstApi | scripts/generate-nextjs-routes.ts:31 | the unanchored replace removes the first occurrence of `/api/` (no earlier position starts one) and keeps the text before and after it; a path without `/api/` is unchanged |
| Paths.RemoveFirstApiAtStart | scripts/generate-nextjs-routes.ts:31 | on a path that starts with `/api/` the unanchored and anchored strips agree |
| Paths.RemoveFirstApiInside | scripts/generate-nextjs-routes.ts:31 | on `/v1/api/users` they differ: the unanchored strip gives `/v1users`, the anchored one changes nothing |
| Paths.StripTrailingSlash | scripts/smart-vercel-bridge.ts:39 | `replace(/\/$/, '')` removes one final `/` and changes the path exactly when it ends with one |
| Paths.ParamsToId | scripts/smart-vercel-bridge.ts:38 | `replace(/\/:[^\/]+/g, '/[id]')` leaves no `/:name` segment behind and keeps the first character |
| Paths.ParamsToIdNoParam | scripts/smart-vercel-bridge.ts:38 | a path with no `/:name` segment is unchanged |
| Paths.ParamsToIdAppend | scripts/smart-vercel-bridge.ts:38 | the rewrite works segment by segment: it distributes over a split at a `/` |
| Paths.ParamsToIdParam | scripts/smart-vercel-bridge.ts:38 | a leading `/:name` segment becomes `/[id]` whatever the name |
| Paths.ParamNameIrrelevant | scripts/smart-vercel-bridge.ts:38 | two paths that differ only in a parameter's name rewrite to the same text |
| Paths.EndParamToIdNoParam | scripts/generate-vercel-api-bridge.ts:99 | the second replace, anchored at the end, changes nothing once the first has run |
| Paths.GroupKey | scripts/smart-vercel-bridge.ts:37-39 | the normalised group key is never empty |
| Paths.GroupKeyEmpty | scripts/smart-vercel-bridge.ts:39 | the key of the empty path and of `/` is `index` |
| Paths.GroupKeyNoParam | scripts/smart-vercel-bridge.ts:37-39 | a path with no parameter keeps its text, less a trailing slash, as its key |
| Paths.GroupKeyParamName | scripts/smart-vercel-bridge.ts:37-39 | paths that differ only in a parameter's name share a group |
| Paths.GroupKeyOfParam | scripts/smart-vercel-bridge.ts:38 | the key of a path with a parameter segment contains `[` |
| Paths.NormalizePathIsGroupKey | scripts/generate-vercel-api-bridge.ts:96-102 | `normalizePath`, with its extra end-anchored replace, always equals the key of the other two scripts |
| Paths.NormalizePath | scripts/generate-vercel-api-bridge.ts:96-102 | `normalizePath` never returns the empty string: `|| 'index'` replaces it |
| Paths.ParamsToBrackets | scripts/complete-conversion.ts:39 | `replace(/:([^\/]+)/g, '[$1]')` leaves a path without `:` unchanged |
| Paths.ParamsToBracketsParam | scripts/complete-conversion.ts:39 | a `:name` segment becomes `[name]` |
| Paths.BracketsToParams | scripts/generate-vercel-api-bridge.ts:146 | `replace(/\[([^\]]+)\]/g, ':$1')` leaves a path without `[` unchanged |
| Paths.BracketsParamsRoundTrip | scripts/generate-vercel-api-bridge.ts:146 | turning brackets back into `:` parameters inverts the `:name` to `[name]` rewrite on bracket-free paths |
| Paths.StarToSlug | scripts/generate-nextjs-routes.ts:35-37 | a path without `*` is unchanged |
| Paths.StarToSlugEnds | scripts/generate-nextjs-routes.ts:35-37 | a path the rewrite changes ends in `[...slug]` |
| Paths.StarToSlugFirst | scripts/generate-nextjs-routes.ts:35-37 | on a one-line path, everything from the first `*` to the end becomes `[...slug]` |
| Paths.CollapseSlashes | scripts/smart-vercel-bridge.ts:137 | `replace(/\/+/g, '/')` keeps the first character and maps only empty to empty |
| Paths.CollapseSlashesNoDouble | scripts/smart-vercel-bridge.ts:137 | after collapsing, no two slashes are adjacent |
| Paths.CollapseSlashesKeeps | scripts/smart-vercel-bridge.ts:137 | a path without `//` is unchanged |
| Paths.CollapseSlashesPrefix | scripts/smart-vercel-bridge.ts:137 | collapsing leaves a clean prefix that does not end in `/` untouched |
| Paths.CollapseSlashesKeepsChar | scripts/smart-vercel-bridge.ts:137 | collapsing keeps every character other than `/` |
| Paths.CollapsedApiPath | scripts/smart-vercel-bridge.ts:137 | collapsing `/api/` + key gives `/api/…` with no double slash |
| Paths.StripTrailingSlashOnce | scripts/smart-vercel-bridge.ts:137 | after collapsing, one trailing-slash strip leaves a non-empty path that does not end in `/` |
| Paths.FullApiPath | scripts/smart-vercel-bridge.ts:136-137 | the full API path starts with `/api`, has no double slash and does not end in `/` |
| Paths.FullApiPathIndex | scripts/smart-vercel-bridge.ts:136-137 | the `index` group's full API path is `/api` |
| Paths.FullApiPathKey | scripts/smart-vercel-bridge.ts:136-137 | for a clean key, the full API path is `/api/` + key |
| Paths.FullApiPathKeepsChar | scripts/smart-vercel-bridge.ts:136-137 | every non-`/` character of the key appears in its full API path |
| RouteScan.MatchAt | scripts/smart-vercel-bridge.ts:19 | a match at i spells `app.` and one of the five verbs, then `(` (after spaces only in the spaced variant), spaces, a quote, a quote-free path and a quote |
| RouteScan.MatchAtSound | scripts/smart-vercel-bridge.ts:19 | every match the scanner reports has the shape the pattern describes |
| RouteScan.MatchAtComplete | scripts/smart-vercel-bridge.ts:19 | every occurrence of that shape at i is the match the scanner reports |
| RouteScan.VerbsExclusive | scripts/smart-vercel-bridge.ts:19 | at most one verb alternative spells at a position, so the pattern is deterministic |
| RouteScan.SpaceBeforeParen | scripts/generate-nextjs-routes.ts:13 | `app.get ("/x"` matches the pattern with `\s*` before `(` and not the one without |
| RouteScan.ExecSound | scripts/smart-vercel-bridge.ts:23 | `exec` from `lastIndex` returns the leftmost match at or after it, or none when there is none |
| RouteScan.Exec | scripts/smart-vercel-bridge.ts:23 | a match found from `lastIndex` starts at or after it, ends after its start inside the text, and is an occurrence of the pattern |
| RouteScan.ExecStep | scripts/smart-vercel-bridge.ts:23 | the `while` loop's matches are the found match followed by the matches from its end on, and the end advances |
| RouteScan.AttemptsAdvance | scripts/smart-vercel-bridge.ts:23 | every match ends after it starts and inside the text, so the exec loop terminates |
| RouteScan.CapturedVerbs | scripts/smart-vercel-bridge.ts:24 | every captured method is one of the five verbs |
| RouteScan.ScanRendered | scripts/smart-vercel-bridge.ts:23-28 | scanning declarations `app.<verb>('<path>');` one per line captures exactly their verbs and paths, in order |
| RouteScan.UpperOfVerb | scripts/smart-vercel-bridge.ts:27 | an upper-cased verb is one of GET, POST, PUT, DELETE, PATCH |
| RouteScan.VerbsRoundTrip | scripts/smart-vercel-bridge.ts:172 | `method.toLowerCase()` of the upper-cased verb gives back the verb the router stores |
| Grouping.Project | scripts/generate-vercel-api-bridge.ts:106 | `map` keeps the length and applies the function at every index |
| Grouping.Members | scripts/generate-vercel-api-bridge.ts:89 | a group holds only elements of the input with that key |
| Grouping.GroupLists | scripts/generate-vercel-api-bridge.ts:78-93 | the map of lists has exactly the first-seen keys, and each list holds that key's elements in input order |
| Grouping.GroupSets | scripts/smart-vercel-bridge.ts:33-45 | the map of sets has exactly the first-seen keys, and each set holds that key's distinct values in first-seen order |
| Grouping.MemberOfOwnKey | scripts/generate-vercel-api-bridge.ts:81-90 | every element's key is a key of the map, and the element is in its own group |
| Grouping.KeyHasMember | scripts/generate-vercel-api-bridge.ts:85-86 | no key is created without an element that has it |
| Grouping.NoMembersOutsideKeys | scripts/generate-vercel-api-bridge.ts:81-90 | a key that is not in the map has no elements |
| Grouping.Partition | scripts/generate-vercel-api-bridge.ts:81-90 | the groups together hold every route exactly once: their multiset union is the input |
| Express.RouteLayer | scripts/smart-vercel-bridge.ts:170-172 | a registered declaration gives a layer with a route whose path is the declared path and whose only method is the verb |
| Express.Registered | scripts/smart-vercel-bridge.ts:169 | registering declarations appends one layer per declaration, in order, after the existing stack |
| Express.FirstFrom | scripts/generate-vercel-api-bridge.ts:190 | `find` returns the first index from the start whose element satisfies the test, or none when none does |
| Express.FindRoute | scripts/generate-vercel-api-bridge.ts:190-194 | the layer found has a route, the method and the path looked up, and no earlier layer does; none means no layer does |
| Express.FirstFromAppend | scripts/generate-vercel-api-bridge.ts:190 | once `find` succeeds, layers added after the stack do not change its result |
| Express.FirstMatchWins | scripts/smart-vercel-bridge.ts:169-176 | the scan breaks at the first match: later layers never change the layer found |
| Express.GroupLookupFindsDeclared | scripts/smart-vercel-bridge.ts:170-172 | with the lookup corrected to compare group keys, every route with the method is found |
| Express.DeclaredIsFound | scripts/smart-vercel-bridge.ts:170-172 | with the corrected lookup, every declared route's group and verb find a layer |
| Express.BracketPathNeverFound | scripts/smart-vercel-bridge.ts:171 | a literal lookup of a path with `[` finds nothing when no declared path contains `[` |
| Mock.MockResponse.constructor | scripts/generate-api.js:102-104 | a new mock response has status 200, no headers, no data and a pending promise |
| Mock.MockResponse.SetStatus | scripts/generate-api.js:105-108 | `status(code)` sets the status, changes nothing else and returns the mock |
| Mock.MockResponse.SetHeader | scripts/generate-api.js:123-126 | `setHeader` records the header, changes nothing else and returns the mock |
| Mock.MockResponse.Answer | scripts/generate-api.js:109-122 | `json` and `send` resolve with the current status and headers if nothing resolved before; both calls have the same effect |
| Mock.MockResponse.Resolve | scripts/generate-api.js:144 | a direct `resolve` settles the promise unless it is already settled |
| Mock.MockResponse.Invoke | scripts/generate-api.js:137 | running a handler applies its calls to the mock in order, stopping at one that throws |
| Mock.Step | scripts/generate-api.js:105-126 | only `status` changes the status; a settled promise stays as it is; a pending one is settled only by `json`/`send`, with their data and the status and headers set before them, or, under the smart bridge, by `next` with its 500 |
| Mock.RunAppend | scripts/generate-api.js:102-127 | running two call sequences one after the other is running their concatenation |
| Mock.QuietRun | scripts/generate-api.js:102-127 | calls that do not answer leave the last status set and the headers set, and the promise pending |
| Mock.FirstAnswerWins | scripts/generate-api.js:109-115 | the first `json`/`send` fixes the response: its data with the status and headers set before it |
| Mock.Run | scripts/generate-api.js:109-122 | running the handler's calls never changes a promise that is already settled |
| Mock.NextBeforeAnswer | scripts/smart-vercel-bridge.ts:200-202 | `next` before any answer: where no `next` is passed the call throws and nothing is resolved; the smart bridge's `next` gives the 500; a no-op `next` changes nothing |
| Mock.OutcomeAt | scripts/generate-api.js:133-140 | when layer i is the first match, the handler answers what layer i's handler resolves |
| Mock.OutcomeFirstMatch | scripts/generate-api.js:133-140 | layers after the first match never change the answer |
| Mock.OutcomeOfAnswer | scripts/generate-api.js:109-140 | a matched handler that answers after quiet calls gives that answer with their status and headers |
| Mock.DeclaredOutcome | scripts/generate-api.js:133-140 | with the corrected lookup, a declared route's method is served by a layer of its group at or before it |
| Mock.Outcome | scripts/generate-api.js:130-145 | when no layer matches the method and path, the handler answers 404 |
| Mock.ParamRouteLiteralLookup | scripts/generate-api.js:135 | looking up the literal full API path of a parameter route's group answers 404 |
| Mock.BodyOrEmpty | scripts/smart-vercel-bridge.ts:151 | the body is `{}` for GET or an unparsable body, and otherwise the parsed JSON |
| BridgeRoutes.ExtractRoutes | scripts/smart-vercel-bridge.ts:19-28 | the extraction loop pushes one route per `exec` match, in order: upper-cased method, anchored `/api/` strip |
| BridgeRoutes.ExtractedMethods | scripts/smart-vercel-bridge.ts:27 | every extracted method is GET, POST, PUT, DELETE or PATCH |
| BridgeRoutes.ExtractedRendered | scripts/smart-vercel-bridge.ts:19-28 | the routes extracted from rendered declarations are exactly those declarations, in order |
| BridgeRoutes.PathPartsIsSplit | scripts/smart-vercel-bridge.ts:58 | the `index` special case agrees with splitting the key |
| BridgeRoutes.ForEachGroup | scripts/smart-vercel-bridge.ts:57-70 | the `forEach` over groups writes one file per key, in key order, and `fileCount` counts them |
| BridgeRoutes.WriteRouteFiles | scripts/smart-vercel-bridge.ts:57-70 | the file for each group sits at `api/<parts>/route.ts`, lists the group's methods and looks up its full API path |
| BridgeRoutes.Generate | scripts/smart-vercel-bridge.ts:19-70 | one file per group of the extracted routes, keys in first-seen order, each with its method set; `fileCount` is the number of groups |
| BridgeRoutes.GroupMethods | scripts/smart-vercel-bridge.ts:35-45 | a method is in a group's set exactly when some extracted route of that key has it |
| BridgeRoutes.MethodHasRoute | scripts/smart-vercel-bridge.ts:44 | every method in a group's set comes from a route of that group |
| BridgeRoutes.RouteHasMethod | scripts/smart-vercel-bridge.ts:44 | every route's method is in its own group's set |
| SmartVercelBridge.Dispatch | scripts/smart-vercel-bridge.ts:164-205 | the scan with `break` answers what the first matching layer's handler resolves, or 404 when none matches |
| SmartVercelBridge.Handle | scripts/smart-vercel-bridge.ts:144-206 | an exported handler builds the mock request for its group's full API path and answers as the corrected dispatch does |
| SmartVercelBridge.ServesDeclared | scripts/smart-vercel-bridge.ts:169-202 | with the corrected lookup, the handler generated for a declared route's group and method runs a handler of that group and method |
| SmartVercelBridge.AsWrittenParamRouteNotFound | scripts/smart-vercel-bridge.ts:171 | as generated, a declared route with a `:name` parameter is answered with 404 |
| GenerateApi.Dispatch | scripts/generate-api.js:130-145 | the found-flag loop answers what the first matching layer's handler resolves, or 404 when none matches |
| GenerateApi.Handle | scripts/generate-api.js:85-146 | an exported handler answers as the corrected dispatch does, for the mock request of its full API path |
| GenerateApi.ServesDeclared | scripts/generate-api.js:133-140 | with the corrected lookup, the handler for a declared route's group and method runs a handler of that group and method |
| GenerateApi.AsWrittenParamRouteNotFound | scripts/generate-api.js:135 | as generated, a declared route with a `:name` parameter is answered with 404 |
| GenerateApi.NextIsNoOp | scripts/generate-api.js:137 | with the no-op `next`, a handler that calls `next` and then answers gets its answer through |
| NextjsRoutes.ParseExpressRoutes | scripts/generate-nextjs-routes.ts:9-26 | the `while` loop pushes one route per match of the pattern without `\s*` before `(`, in text order |
| NextjsRoutes.ParsedRendered | scripts/generate-nextjs-routes.ts:9-26 | rendered declarations parse back to exactly their upper-cased verbs and paths, in order |
| NextjsRoutes.ParsedMethods | scripts/generate-nextjs-routes.ts:18-21 | every parsed method is one of the five upper-cased verbs, and `path` equals `originalPath` |
| NextjsRoutes.ConvertPathToNextJS | scripts/generate-nextjs-routes.ts:29-40 | a path with no `/api/`, no `:` and no `*` is returned unchanged |
| NextjsRoutes.ConvertPlain | scripts/generate-nextjs-routes.ts:29-40 | a path without `:` or `*` converts to itself less the `/api/` prefix |
| NextjsRoutes.ConvertRoundTrip | scripts/generate-nextjs-routes.ts:31-32 | turning the brackets back into parameters recovers the path under `/api/` |
| NextjsRoutes.ConvertStar | scripts/generate-nextjs-routes.ts:35-37 | with a `*`, the converted path is cut at the first `*` and ends in `[...slug]` |
| NextjsRoutes.HasParamsIffColon | scripts/generate-nextjs-routes.ts:114-187 | a service call takes `params` exactly when the path contains `:` |
| NextjsRoutes.GetServiceCall | scripts/generate-nextjs-routes.ts:114-187 | a selected call that uses `params.id` takes `params`, and a call that uses `body` is selected only for POST, PUT or PATCH |
| NextjsRoutes.ProjectsRules | scripts/generate-nextjs-routes.ts:116-137 | parameterless `/projects`: GET gives `getProjectsWithStats` or `getAllProjects`, POST gives `createProject` |
| NextjsRoutes.ProjectByIdRules | scripts/generate-nextjs-routes.ts:140-161 | `/projects/:id`: GET gives `getProjectById`, PUT and PATCH give `updateProject`, DELETE gives `deleteProject` |
| NextjsRoutes.WorkersRules | scripts/generate-nextjs-routes.ts:165-180 | parameterless `/workers`: GET gives `getAllWorkers`, POST gives `createWorker` |
| NextjsRoutes.ProjectIdUnderProjects | scripts/generate-nextjs-routes.ts:116-140 | a path containing `/projects/:id` also contains `/projects`, so the first rule is tried first |
| NextjsRoutes.FallbackRule | scripts/generate-nextjs-routes.ts:183-187 | other paths get the placeholder, with `hasParams` exactly when the path contains `:` |
| NextjsRoutes.GenerateNextJSRoute | scripts/generate-nextjs-routes.ts:54-108 | at most one handler block is emitted, exactly for GET, POST, PUT or DELETE; it carries the route's method and the service call, and reads the body exactly for POST and PUT; the result keeps the route's method and path, and its service call is the one `getServiceCall` selects for them |
| NextjsRoutes.GeneratedHandlersScoped | scripts/generate-nextjs-routes.ts:54-108 | an emitted block that calls `params.id` takes `params`, and one whose call uses `body` reads it |
| NextjsRoutes.PatchEmitsNothing | scripts/generate-nextjs-routes.ts:148-151 | a PATCH route on `/projects/:id` selects `updateProject` but no handler block is emitted |
| NextjsRoutes.Skipped | scripts/generate-nextjs-routes.ts:210-214 | a route is skipped exactly when its path includes `/mobile` or `/api/health`, the skip list's entries without their `*` |
| NextjsRoutes.Step | scripts/generate-nextjs-routes.ts:213-240 | one turn of the loop changes nothing exactly when the route is skipped or its route file exists; otherwise it appends that file with the route and its generated content, and the file then exists |
| NextjsRoutes.ConvertAll | scripts/generate-nextjs-routes.ts:213-240 | every file that existed still exists afterwards, and at most one file is written per route |
| NextjsRoutes.ConvertExpressToNextJS | scripts/generate-nextjs-routes.ts:191-249 | a missing routes file writes nothing; otherwise the loop skips `/mobile` and `/api/health`, never writes an existing file, and `converted` counts the files written |
| NextjsRoutes.ConvertAllNoOverwrite | scripts/generate-nextjs-routes.ts:227-230 | no file that existed is written, no file is written twice, and at most one file is written per route |
| NextjsRoutes.StepNoOverwrite | scripts/generate-nextjs-routes.ts:213-240 | one iteration of the loop keeps the no-overwrite invariant |
| NextjsRoutes.ConvertAllAnnounced | scripts/generate-nextjs-routes.ts:213-239 | every file written comes from a route that is not skipped, at that route's location, with that route's content |
| NextjsRoutes.ConvertAllCovers | scripts/generate-nextjs-routes.ts:213-240 | afterwards every route that is not skipped has its route file, and every file that existed is still there |
| NextjsRoutes.DistinctPathsDistinctFiles | scripts/generate-nextjs-routes.ts:219 | with the route file placed under the converted path, different converted paths get different files |
| CompleteConversion.TableWellFormed | scripts/complete-conversion.ts:9-34 | `NEXTJS_ROUTES` has fifteen entries, each with a path starting with `/api/` and a non-empty method list |
| CompleteConversion.GroupWellFormed | scripts/complete-conversion.ts:10-33 | every entry of each service's part of the table is well formed |
| CompleteConversion.ConvertRoundTrip | scripts/complete-conversion.ts:36-40 | turning the brackets back into parameters recovers the path under `/api/` |
| CompleteConversion.ConvertKeepsInnerApi | scripts/complete-conversion.ts:38 | the anchored strip leaves a path that does not start with `/api/` alone |
| CompleteConversion.ConvertToNextJSPath | scripts/complete-conversion.ts:36-40 | a path without `:` is only stripped of a leading `/api/` |
| CompleteConversion.GenerateRouteContent | scripts/complete-conversion.ts:42-74 | one handler per listed method, in order; each takes `params` exactly when the path has `:`, reads the body exactly for POST, PUT and PATCH; the interface is emitted exactly when the path has `:` |
| CompleteConversion.CreateRoutes | scripts/complete-conversion.ts:88-112 | the loop writes each entry's file unless it exists, and `createdRoutes` counts the files written |
| CompleteConversion.CreateNextJSStructure | scripts/complete-conversion.ts:76-115 | at most fifteen files are created, and none of them existed before |
| CompleteConversion.Place | scripts/complete-conversion.ts:91-112 | one turn of the loop changes nothing exactly when the entry's file exists; otherwise it records that file with the entry's path, and the file then exists |
| CompleteConversion.Create | scripts/complete-conversion.ts:91-112 | every file that existed still exists afterwards, and at most one file is created per entry |
| CompleteConversion.CreateNoOverwrite | scripts/complete-conversion.ts:101-104 | no file that existed is written, no file is written twice, and every file written is in the new file set |
| CompleteConversion.WriteNoOverwrite | scripts/complete-conversion.ts:101-111 | writing a file that does not exist keeps the no-overwrite invariant |
| CompleteConversion.CreateCovers | scripts/complete-conversion.ts:91-112 | afterwards every entry's target file exists, and so does every file that existed |
| CompleteConversion.SharedTargetOneWritten | scripts/complete-conversion.ts:101-104 | of two entries with the same target file only the first is written |
| CompleteConversion.DistinctTargetsBothWritten | scripts/complete-conversion.ts:101-111 | two entries with different target files are both written, in order |
| CompleteConversion.AsWrittenOneSegmentCollision | scripts/complete-conversion.ts:92-94 | as written, every one-segment entry's file is `app/api/route.ts` |
| CompleteConversion.AsWrittenTableCollision | scripts/complete-conversion.ts:11-16 | as written, `/api/projects` and `/api/workers` both go to `app/api/route.ts` |
| CompleteConversion.AsWrittenSecondPassedOver | scripts/complete-conversion.ts:91-112 | as written, of two one-segment entries only the first is created |
| CompleteConversion.CorrectedBothCreated | scripts/complete-conversion.ts:91-112 | with the file under the converted path, two different parameter paths under `/api/` are both created |
| CompleteConversion.OneSegmentTarget | scripts/complete-conversion.ts:110 | the corrected file for `/api/x` is `app/api/x/route.ts`, the path the log line prints |
| CompleteConversion.TargetFilesApart | scripts/complete-conversion.ts:92-94 | with the corrected placement, different entry paths get different files |
| AppLayout.AsWrittenOneSegment | scripts/complete-conversion.ts:93-94 | `path.join('app', 'api', path.dirname(x), 'route.ts')` for a one-segment x is `app/api/route.ts` |
| AppLayout.AsWrittenTwoSegments | scripts/complete-conversion.ts:93-94 | for `a/b` the file lands in the parent's directory `app/api/a` |
| AppLayout.RouteFileAsWritten | scripts/complete-conversion.ts:93-94 | as written, the file is the route file of the directory of the converted path rather than of the path itself |
| AppLayout.RouteFileSegments | scripts/complete-conversion.ts:110 | the corrected file's segments are `app`, `api`, the path's segments and `route.ts` |
| AppLayout.RouteFileOfClean | scripts/complete-conversion.ts:110 | the corrected file of a clean path x is `app/api/x/route.ts` |
| AppLayout.RouteFileInjective | scripts/complete-conversion.ts:110 | different clean paths give different corrected files |
| VercelApiBridge.RemoveHyphens | scripts/generate-vercel-api-bridge.ts:73 | `replace(/-/g, '')` leaves no hyphen and never lengthens the text |
| VercelApiBridge.NamesAppend | scripts/generate-vercel-api-bridge.ts:71-74 | the name of concatenated segment lists is the concatenation of their names |
| VercelApiBridge.NamesNoSlash | scripts/generate-vercel-api-bridge.ts:71-74 | segments without `/` give a name without `/` |
| VercelApiBridge.HandlerName | scripts/generate-vercel-api-bridge.ts:70-75 | the name starts with `handle` and the upper-cased method, and contains no `/` when the method contains none |
| VercelApiBridge.HandlerNameOfWord | scripts/generate-vercel-api-bridge.ts:70-75 | for a one-segment path the name is `handle` + upper-cased method + capitalised segment without hyphens |
| VercelApiBridge.HandlerNameSkipsParam | scripts/generate-vercel-api-bridge.ts:71 | a `:name` segment does not contribute to the handler name |
| VercelApiBridge.LineRoute | scripts/generate-vercel-api-bridge.ts:46-62 | a line's route carries the line number it was given |
| VercelApiBridge.LineRouteNone | scripts/generate-vercel-api-bridge.ts:46-52 | a line yields a route exactly when the pattern matches at some position of the trimmed line |
| VercelApiBridge.ScanLines | scripts/generate-vercel-api-bridge.ts:45-64 | the `forEach` over lines pushes each line's route, in line order, numbered from 1 |
| VercelApiBridge.NumberLinesFromLines | scripts/generate-vercel-api-bridge.ts:45-64 | each route comes from the line its number names, and the numbers strictly increase |
| VercelApiBridge.LineRoutesNumbered | scripts/generate-vercel-api-bridge.ts:43-63 | at most one route per line, in line order, each from the line its number names |
| VercelApiBridge.LineRoutesComplete | scripts/generate-vercel-api-bridge.ts:49-63 | every line that matches yields its route |
| VercelApiBridge.LineRouteMethod | scripts/generate-vercel-api-bridge.ts:49-58 | a line's route has one of the five verbs, upper-cased |
| VercelApiBridge.LineRoutesMethods | scripts/generate-vercel-api-bridge.ts:49-58 | every extracted method is GET, POST, PUT, DELETE or PATCH |
| VercelApiBridge.FileMethodsDistinct | scripts/generate-vercel-api-bridge.ts:106 | the methods of a file are duplicate-free, in first-seen order, and exactly those of its group's routes |
| VercelApiBridge.Generator.constructor | scripts/generate-vercel-api-bridge.ts:20-25 | a new generator has no routes and empty content |
| VercelApiBridge.Generator.AnalyzeRoutesFile | scripts/generate-vercel-api-bridge.ts:28-39 | a missing routes file is the error and changes nothing; otherwise the content is read and its routes are appended |
| VercelApiBridge.Generator.ExtractRoutes | scripts/generate-vercel-api-bridge.ts:42-67 | the routes field grows by the routes of the content's lines, in order; the content is unchanged |
| VercelApiBridge.Generator.GroupRoutesByPath | scripts/generate-vercel-api-bridge.ts:78-93 | the map has exactly the first-seen normalised paths as keys, each with its routes in order |
| VercelApiBridge.GroupFile | scripts/generate-vercel-api-bridge.ts:231-232 | the `index` ternary changes nothing: the file written for a group is the one for its key itself |
| VercelApiBridge.Generator.GenerateApiFiles | scripts/generate-vercel-api-bridge.ts:216-249 | one file per group, in key order, each with its group's distinct methods and lookup path; `generatedFiles` counts them |
| VercelApiBridge.SameGroupsAsSmartBridge | scripts/generate-vercel-api-bridge.ts:96-102 | this script's keys and their order are those of the smart bridge |
| VercelApiBridge.Handle | scripts/generate-vercel-api-bridge.ts:142-209 | an exported handler answers 500 when the body does not parse, and otherwise as the corrected lookup's handler resolves, or 404 |
| VercelApiBridge.ServesDeclared | scripts/generate-vercel-api-bridge.ts:190-197 | with the corrected lookup, the handler for a declared route's group and method runs a handler of that group and method |
| VercelApiBridge.BracketsToParamsId | scripts/generate-vercel-api-bridge.ts:146 | the `[id]` of a group key always turns back into `:id` |
| VercelApiBridge.GroupKeyEndParam | scripts/generate-vercel-api-bridge.ts:98 | a path ending in a parameter segment, whatever its name, has the key `<prefix>/[id]` |
| VercelApiBridge.LookupPathId | scripts/generate-vercel-api-bridge.ts:146 | the `<prefix>/[id]` group looks up `/api/<prefix>/:id` |
| VercelApiBridge.LookupPathPlain | scripts/generate-vercel-api-bridge.ts:146 | the looked-up path starts with `/api/`, and a key without `[` is looked up as `/api/` + key |
| VercelApiBridge.AsWrittenOtherParamNameNotFound | scripts/generate-vercel-api-bridge.ts:146 | as generated, when no route is declared as `/api/<prefix>/:id` that group's handler answers 404 |
| VercelApiBridge.SingleRouteServed | scripts/generate-vercel-api-bridge.ts:190-197 | with the corrected lookup, a single declared `get` route is run by its group's GET handler |
| VercelApiBridge.AsWrittenRenamedParam | scripts/generate-vercel-api-bridge.ts:146 | a route declared as `/api/<prefix>/:x` with x other than `id`: the generated handler answers 404, the corrected one runs it |
| ApiServices.HandleApiError | server/api-services/index.ts:19-25 | the error envelope is unsuccessful, carries neither data nor message, and its error is the Error's message or the fixed default text |
| ApiServices.HandleApiSuccess | server/api-services/index.ts:28-34 | the success envelope is successful, has no error, and passes data and message through unchanged |
| ApiServices.ErrorText | server/api-services/index.ts:20 | a reader of the error envelope sees a failure with the Error's message or the default text |
| ApiServices.SuccessRoundTrip | server/api-services/index.ts:28-34 | a reader of the success envelope gets back exactly the data, and the message is kept |
| ApiServices.EnvelopesApart | server/api-services/index.ts:19-34 | no success envelope equals an error envelope |

## Left out

- Files and directories: reading the routes file, `existsSync`, `mkdirSync`, `rmSync` and `writeFileSync` are not modelled. The routes file is a parameter, missing files are `None`, the existing files are a set of names, and a written file is a record of its location and content.
- Console logging, `process.exit`, `updatePackageScripts` (a JSON edit of `package.json`), `copyRequiredFiles` and `generateDeploymentInstructions` in `scripts/complete-conversion.ts`, and `runCompleteConversion`: these are file and console I/O with no logic to prove.
- The text of the generated files is not modelled. A generated file is its location, its group, its methods and the path it looks up; a generated handler is the behaviour of its code, as a method over the router stack.
- The Express app: `registerRoutes`, the lazily cached `getExpressApp` singleton and Express's internals. The router stack is a parameter, a handler is a function from the mock request to the calls it makes on the response, and `stack[0].handle` is the route's handler.
- Asynchronous behaviour: a promise that never settles and a rejected promise are both `None`. A handler that throws, or that calls `next` where the Vercel bridge passes none, stops at that call, and the response is whatever it resolved before.
- The `catch` of the generated handlers in `scripts/smart-vercel-bridge.ts` and `scripts/generate-api.js` is not modelled. `getExpressApp` does not fail in the model, and the body parse there falls back to `{}`.
- `scripts/smart-vercel-bridge.ts:109`: `createMockResponse` returns an object that refers to an undefined `mockRes`. The model gives the evidently intended mock, the object itself. `req.query || {}` never falls back, because the query is always an object.
- `scripts/generate-api.js:78` and `scripts/generate-nextjs-routes.ts:201`: backticks escaped outside a template literal make these scripts unparseable as written. The model uses the template literals evidently intended.
- `scripts/generate-vercel-api-bridge.ts`: `routesForMethod` (line 139) is computed and never used, `handler && handler.route` (line 196) always holds after `find`, and the `filePath` ternary (line 231) is the identity. The model omits the first two and keeps the ternary in `GroupFile`, whose contract shows it changes nothing.
- `generateNextJSRoute` computes `nextPath` (line 45) and never uses it; the template text around the handler blocks is not modelled.
- NextjsRoutes.ConvertExpressToNextJS and CompleteConversion.CreateRoutes place each route file under the converted path, `app/api/<path>/route.ts`, as the scripts' log lines print. The `path.dirname` placement the code performs is modelled separately, as the first row of Findings.
- SmartVercelBridge.Handle, GenerateApi.Handle and VercelApiBridge.Handle look routes up by group key, the evidently intended lookup. The literal lookup as generated is modelled by `HandlerOutcomeAsWritten` (see Findings).
- CompleteConversion.CreateNextJSStructure states only the bound and the no-overwrite property. Its full effect is what CompleteConversion.CreateRoutes states for the fixed table.
- The service classes (`ProjectService`, `WorkerService` and the others), the thin `app/api/*/route.ts` handlers, the Express servers, `api/index.*`, the Next.js configuration and the demo script. These are wrappers over storage that is not part of this model.
- VercelApiBridge.HandlerName: the first character of each kept segment is upper-cased with the ASCII-only `UpperChar`, while the script applies `toUpperCase`, which maps any letter: a segment `éte` gives `handleGETÉte` there and `handleGETéte` here, and `ß` becomes two characters there. The name only fills the `handlerName` field assigned at scripts/generate-vercel-api-bridge.ts:60, which no generated file reads.
- VercelApiBridge.HandlerNameOfWord: states the name of a one-segment path with the same ASCII-only upper-casing of the segment's first character, for the reason above.
- JSON numbers are integers only (`Express.Json`); floating-point numbers are not modelled. The handlers only pass data through, so no property depends on the kind of number.
- JavaScript white space and case mapping: `trim` uses the ECMAScript white-space and line-terminator set. `toUpperCase` and `toLowerCase` are modelled on ASCII letters only, which covers every verb the pattern can capture.

## Findings

| source | as written | input that shows it | evidently intended | confidence | as-written member | corrected member |
|---|---|---|---|---|---|---|
| scripts/complete-conversion.ts:93 | the route directory is `path.dirname(nextPath)` under `app/api` | the table entries `/api/projects` and `/api/workers` both go to `app/api/route.ts`, so the second is skipped as existing | `app/api/<nextPath>/route.ts`, the file the log line at line 110 announces | high (not executed) | CompleteConversion.AsWrittenSecondPassedOver | CompleteConversion.CorrectedBothCreated |
| scripts/generate-nextjs-routes.ts:219 | the same `path.dirname(nextPath)` placement | `app.get("/api/projects", …)` and `app.get("/api/workers", …)` both map to `app/api/route.ts` | `app/api/<nextPath>/route.ts`, as the log line at line 239 prints | high (not executed) | AppLayout.AsWrittenOneSegment | NextjsRoutes.DistinctPathsDistinctFiles |
| scripts/smart-vercel-bridge.ts:171 | the lookup compares each layer's path with the group's full API path, which holds `[id]` | `app.get("/api/projects/:id", …)`: the file for `projects/[id]` looks up `/api/projects/[id]` and answers 404 | the declared routes of the file's group are found | high (not executed) | SmartVercelBridge.AsWrittenParamRouteNotFound | SmartVercelBridge.ServesDeclared |
| scripts/generate-api.js:135 | the same literal comparison with a path that holds `[id]` | `app.get("/api/projects/:id", …)` answers 404 | the declared routes of the file's group are found | high (not executed) | GenerateApi.AsWrittenParamRouteNotFound | GenerateApi.ServesDeclared |
| scripts/generate-vercel-api-bridge.ts:146 | every `[x]` turns back into `:x`, but grouping renamed every parameter to `[id]` | `app.get("/api/projects/:projectId", …)`: the file for `projects/[id]` looks up `/api/projects/:id` and answers 404 | the declared routes of the file's group are found, whatever their parameter names | high (not executed) | VercelApiBridge.AsWrittenRenamedParam | VercelApiBridge.SingleRouteServed |
