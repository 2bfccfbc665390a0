/**
 * Where the generators put their files. The Next.js conversions write one
 * `route.ts` per App Router path under `app/api`; the Vercel bridges write
 * one `route.ts` (or `route.js`) per group under `api`. The working directory
 * the scripts prefix to every path is left out.
 */
module AppLayout {
  import opened Text
  import opened NodePath

  /**
   * The route file of a Next.js path as `complete-conversion.ts` and
   * `generate-nextjs-routes.ts` compute it: the directory is joined from the
   * `dirname` of the path, so the last segment is lost.
   */
  function RouteFileAsWritten(nextPath: string): (r: string)
    ensures r == RouteFile(Dirname(nextPath))
  {
    JoinOfJoin(["app", "api", Dirname(nextPath)], "route.ts");
    assert ["app", "api", Dirname(nextPath)] + ["route.ts"] == ["app", "api", Dirname(nextPath), "route.ts"];
    PathJoin([PathJoin(["app", "api", Dirname(nextPath)]), "route.ts"])
  }

  /**
   * The route file the scripts announce, `app/api/<nextPath>/route.ts`: the
   * App Router serves `/api/<nextPath>` from that file.
   */
  function RouteFile(nextPath: string): string {
    PathJoin(["app", "api", nextPath, "route.ts"])
  }

  /** The file a Vercel bridge writes for a group whose path parts are `parts`. */
  function ApiFile(parts: seq<string>, fileName: string): string {
    PathJoin(["api"] + parts + [fileName])
  }

  /** A path argument `path.join` keeps whole: one segment, not `.`. */
  predicate Word(w: string) {
    w != [] && w != "." && '/' !in w
  }

  lemma FixedWords()
    ensures Word("app") && Word("api") && Word("route.ts")
  {
  }

  /** Three words joined after a `.` that `path.join` drops. */
  lemma JoinOverDot(a: string, b: string, f: string)
    requires Word(a) && Word(b) && Word(f)
    ensures PathJoin([PathJoin([a, b, "."]), f]) == a + "/" + b + "/" + f
  {
    SegmentsOfWord(a);
    SegmentsOfWord(b);
    SegmentsOfWord(f);
    SegmentsOfDot();
    AllSegmentsThree(a, b, ".");
    JoinOfJoin([a, b, "."], f);
    assert [a, b, "."] + [f] == [a, b, ".", f];
    AllSegmentsFour(a, b, ".", f);
    assert AllSegments([a, b, ".", f]) == [a, b, f];
    assert [a, b, f][1..] == [b, f] && [b, f][1..] == [f];
    assert Join([b, f], '/') == b + "/" + f;
  }

  /** As written, every one-segment path lands in `app/api/route.ts`, the file of `/api` itself. */
  lemma AsWrittenOneSegment(x: string)
    requires x != [] && '/' !in x
    ensures RouteFileAsWritten(x) == "app/api/route.ts"
  {
    FixedWords();
    var app, api, file := "app", "api", "route.ts";
    OneSegmentUnder(app, api, file, x);
    RootRouteFile(app, api, file);
  }

  lemma RootRouteFile(app: string, api: string, file: string)
    requires app == "app" && api == "api" && file == "route.ts"
    ensures app + "/" + api + "/" + file == "app/api/route.ts"
  {
  }

  /** The `dirname` of a one-segment path is `.`, which the join of the directory drops. */
  lemma OneSegmentUnder(a: string, b: string, f: string, x: string)
    requires Word(a) && Word(b) && Word(f) && x != [] && '/' !in x
    ensures PathJoin([PathJoin([a, b, Dirname(x)]), f]) == a + "/" + b + "/" + f
  {
    DirnameOfSegment(x);
    JoinOverDot(a, b, f);
  }

  /** As written, a path and its parent with one more segment share a directory level: `a/b` lands in `app/api/a/route.ts`. */
  lemma AsWrittenTwoSegments(a: string, b: string)
    requires a != [] && '/' !in a && a != "."
    requires b != [] && '/' !in b
    ensures RouteFileAsWritten(a + "/" + b) == RouteFile(a)
  {
    DirnameParent(a, b);
  }

  /** The segments of a clean path between words: the words, then those of the path. */
  lemma SegmentsAround(a: string, b: string, x: string, f: string)
    requires Word(a) && Word(b) && Word(f) && Clean(x)
    ensures AllSegments([a, b, x, f]) == [a, b] + Split(x, '/') + [f]
  {
    SegmentsOfWord(a);
    SegmentsOfWord(b);
    SegmentsOfWord(f);
    SegmentsOfClean(x);
    AllSegmentsFour(a, b, x, f);
  }

  /** The segments of the corrected route file: `app`, `api`, those of the path, `route.ts`. */
  lemma RouteFileSegments(x: string)
    requires Clean(x)
    ensures AllSegments(["app", "api", x, "route.ts"]) == ["app", "api"] + Split(x, '/') + ["route.ts"]
  {
    FixedWords();
    SegmentsAround("app", "api", x, "route.ts");
  }

  /** `path.join` of a clean path between words puts a single `/` between all of them. */
  lemma JoinAround(a: string, b: string, x: string, f: string)
    requires Word(a) && Word(b) && Word(f) && Clean(x)
    ensures PathJoin([a, b, x, f]) == a + "/" + b + "/" + x + "/" + f
  {
    SegmentsAround(a, b, x, f);
    var parts := Split(x, '/');
    JoinAppend([a, b] + parts, [f], '/');
    JoinAppend([a, b], parts, '/');
    JoinSplit(x, '/');
    assert [a, b][1..] == [b];
    assert [a, b] + parts + [f] == ([a, b] + parts) + [f];
  }

  /** The corrected file is the announced `app/api/<x>/route.ts`. */
  lemma RouteFileOfClean(x: string)
    requires Clean(x)
    ensures RouteFile(x) == "app/api/" + x + "/route.ts"
  {
    FixedWords();
    JoinAround("app", "api", x, "route.ts");
    assert "app" + "/" + "api" + "/" == "app/api/";
  }

  /** Distinct clean paths get distinct corrected route files. */
  lemma RouteFileInjective(x: string, y: string)
    requires Clean(x) && Clean(y)
    requires RouteFile(x) == RouteFile(y)
    ensures x == y
  {
    RouteFileSegments(x);
    RouteFileSegments(y);
    var sx := ["app", "api"] + Split(x, '/') + ["route.ts"];
    var sy := ["app", "api"] + Split(y, '/') + ["route.ts"];
    SplitJoin(sx, '/');
    SplitJoin(sy, '/');
    assert sx == sy;
    assert Split(x, '/') == sx[2..|sx| - 1];
    assert Split(y, '/') == sy[2..|sy| - 1];
    JoinSplit(x, '/');
    JoinSplit(y, '/');
  }
}
