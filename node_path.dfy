/**
 * The two functions of Node's `path` module (POSIX flavour) that decide where
 * the conversion scripts write a route file: `path.dirname` and `path.join`.
 * Only relative paths without `..` segments occur in the scripts, so `join`
 * is modelled as dropping empty and `.` segments and gluing the rest with `/`.
 */
module NodePath {
  import opened Wrappers
  import opened Text

  /**
   * The backward scan of `path.dirname` from index `i` down to index 1: the
   * index of the first `/` met after a character other than `/`.
   * `matchedSlash` holds while only `/` characters have been seen.
   */
  function DirEnd(p: string, i: nat, matchedSlash: bool): (r: Option<nat>)
    requires i < |p|
    ensures r.Some? ==> 1 <= r.value <= i && p[r.value] == '/'
  {
    if i == 0 then None
    else if p[i] == '/' then (if matchedSlash then DirEnd(p, i - 1, true) else Some(i))
    else DirEnd(p, i - 1, false)
  }

  /** `path.dirname(p)`. */
  function Dirname(p: string): (r: string)
    ensures r == "." || r == "/" || r == "//" || (|r| < |p| && r == p[..|r|] && p[|r|] == '/')
  {
    if p == [] then "."
    else match DirEnd(p, |p| - 1, true)
      case None => if p[0] == '/' then "/" else "."
      case Some(e) => if p[0] == '/' && e == 1 then "//" else p[..e]
  }

  lemma {:induction false} DirEndNone(p: string, i: nat, m: bool)
    requires i < |p|
    requires forall j :: 1 <= j <= i ==> p[j] != '/'
    ensures DirEnd(p, i, m).None?
  {
    if i > 0 {
      DirEndNone(p, i - 1, false);
    }
  }

  lemma {:induction false} DirEndAt(p: string, i: nat, k: nat, m: bool)
    requires 1 <= k <= i < |p| && p[k] == '/'
    requires forall j :: k < j <= i ==> p[j] != '/'
    requires k == i ==> !m
    ensures DirEnd(p, i, m) == Some(k)
  {
    if i > k {
      DirEndAt(p, i - 1, k, false);
    }
  }

  /** A single relative segment has `.` as its directory. */
  lemma DirnameOfSegment(x: string)
    requires x != [] && '/' !in x
    ensures Dirname(x) == "."
  {
    DirEndNone(x, |x| - 1, true);
  }

  /** The directory of `a/b`, for a last segment `b`, is `a`. */
  lemma DirnameParent(a: string, b: string)
    requires a != [] && a[|a| - 1] != '/'
    requires b != [] && '/' !in b
    ensures Dirname(a + "/" + b) == a
  {
    var p := a + "/" + b;
    forall j | |a| < j <= |p| - 1
      ensures p[j] != '/'
    {
      assert p[j] == b[j - |a| - 1];
    }
    DirEndAt(p, |p| - 1, |a|, true);
    assert p[..|a|] == a;
  }

  /** The segments of `parts` that `path.join` keeps: the non-empty ones other than `.`. */
  function KeepSegments(parts: seq<string>): (r: seq<string>)
    ensures |r| <= |parts|
    ensures forall s :: s in r ==> s in parts && s != [] && s != "."
  {
    if parts == [] then []
    else (if parts[0] == [] || parts[0] == "." then [] else [parts[0]]) + KeepSegments(parts[1..])
  }

  /** The segments one argument of `path.join` contributes. */
  function Segments(p: string): (r: seq<string>)
    ensures forall s :: s in r ==> s != [] && s != "." && '/' !in s
  {
    KeepSegments(Split(p, '/'))
  }

  function AllSegments(args: seq<string>): (r: seq<string>)
    ensures forall s :: s in r ==> s != [] && s != "." && '/' !in s
  {
    if args == [] then [] else Segments(args[0]) + AllSegments(args[1..])
  }

  /** `path.join(...args)` for relative arguments without `..`. */
  function PathJoin(args: seq<string>): (r: string)
  {
    var segs := AllSegments(args);
    if segs == [] then "." else Join(segs, '/')
  }

  /** A path whose segments are all kept by `path.join`. */
  predicate Clean(p: string) {
    forall s :: s in Split(p, '/') ==> s != [] && s != "."
  }

  lemma {:induction false} KeepAll(parts: seq<string>)
    requires forall s :: s in parts ==> s != [] && s != "."
    ensures KeepSegments(parts) == parts
  {
    if parts != [] {
      assert parts[0] in parts;
      assert forall s :: s in parts[1..] ==> s in parts;
      KeepAll(parts[1..]);
    }
  }

  lemma SegmentsOfClean(p: string)
    requires Clean(p)
    ensures Segments(p) == Split(p, '/')
  {
    KeepAll(Split(p, '/'));
  }

  lemma SegmentsOfWord(w: string)
    requires w != [] && w != "." && '/' !in w
    ensures Segments(w) == [w]
  {
    IndexOfAbsent(w, '/');
  }

  /** Joining again keeps the segments: the result of `path.join` splits back into them. */
  lemma SegmentsOfJoin(args: seq<string>)
    ensures Segments(PathJoin(args)) == AllSegments(args)
  {
    var segs := AllSegments(args);
    if segs == [] {
      SegmentsOfDot();
    } else {
      SplitJoin(segs, '/');
      KeepAll(segs);
    }
  }

  /** `path.join` of joined paths is the join of all their segments. */
  lemma {:induction false} JoinOfJoin(xs: seq<string>, y: string)
    ensures PathJoin([PathJoin(xs), y]) == PathJoin(xs + [y])
  {
    SegmentsOfJoin(xs);
    AllSegmentsAppend(xs, [y]);
    assert AllSegments([PathJoin(xs), y]) == Segments(PathJoin(xs)) + AllSegments([y]);
  }

  lemma {:induction false} AllSegmentsAppend(xs: seq<string>, ys: seq<string>)
    ensures AllSegments(xs + ys) == AllSegments(xs) + AllSegments(ys)
  {
    if xs == [] {
      assert xs + ys == ys;
    } else {
      assert (xs + ys)[1..] == xs[1..] + ys;
      AllSegmentsAppend(xs[1..], ys);
    }
  }

  lemma AllSegmentsOne(x: string)
    ensures AllSegments([x]) == Segments(x)
  {
    assert [x][1..] == [];
  }

  /** The segments of a four-argument `path.join`. */
  lemma AllSegmentsFour(a: string, b: string, c: string, d: string)
    ensures AllSegments([a, b, c, d]) == Segments(a) + Segments(b) + Segments(c) + Segments(d)
  {
    AllSegmentsOne(a);
    AllSegmentsOne(b);
    AllSegmentsOne(c);
    AllSegmentsOne(d);
    AllSegmentsAppend([a, b], [c, d]);
    AllSegmentsAppend([a], [b]);
    AllSegmentsAppend([c], [d]);
    assert [a, b, c, d] == [a, b] + [c, d];
    assert [a, b] == [a] + [b];
    assert [c, d] == [c] + [d];
  }

  /** The segments of a three-argument `path.join`. */
  lemma AllSegmentsThree(a: string, b: string, c: string)
    ensures AllSegments([a, b, c]) == Segments(a) + Segments(b) + Segments(c)
  {
    AllSegmentsOne(a);
    AllSegmentsOne(b);
    AllSegmentsOne(c);
    AllSegmentsAppend([a, b], [c]);
    AllSegmentsAppend([a], [b]);
    assert [a, b, c] == [a, b] + [c];
    assert [a, b] == [a] + [b];
  }

  lemma SegmentsOfDot()
    ensures Segments(".") == []
  {
    IndexOfAbsent(".", '/');
    assert Split(".", '/') == ["."];
  }
}
