/**
 * The path rewrites of the route scripts. Each is a `String.prototype.replace`
 * with a regular expression; each is written here as the left-to-right scan
 * the engine performs: try a match at the current position, and on success
 * emit the replacement and resume after the match, otherwise copy one
 * character and move on.
 */
module Paths {

  import opened Wrappers
  import opened Text

  const ApiPrefix: string := "/api/"

  /** `p.replace(/^\/api\//, '')`: the prefix is removed only where it starts the path. */
  function StripApiPrefix(p: string): (r: string)
    ensures |r| <= |p| && r == p[|p| - |r|..]
    ensures r != p <==> StartsWith(p, ApiPrefix)
  {
    if StartsWith(p, ApiPrefix) then p[|ApiPrefix|..] else p
  }

  /** Stripping undoes adding the prefix. */
  lemma StripApiPrefixAdded(x: string)
    ensures StripApiPrefix(ApiPrefix + x) == x
  {
    assert (ApiPrefix + x)[..|ApiPrefix|] == ApiPrefix;
  }

  /** `p.replace(/\/api\//, '')`: the first `/api/`, wherever it is, is removed. */
  function RemoveFirstApi(p: string): (r: string)
    ensures Contains(p, ApiPrefix) ==> exists i: nat ::
      && OccursAt(p, ApiPrefix, i)
      && (forall k: nat :: k < i ==> !OccursAt(p, ApiPrefix, k))
      && r == p[..i] + p[i + |ApiPrefix|..]
    ensures !Contains(p, ApiPrefix) ==> r == p
  {
    match FindFrom(p, ApiPrefix, 0)
    case None => p
    case Some(i) => assert OccursAt(p, ApiPrefix, i); p[..i] + p[i + |ApiPrefix|..]
  }

  /** On a path that starts with `/api/`, the unanchored removal agrees with the anchored one. */
  lemma RemoveFirstApiAtStart(x: string)
    ensures RemoveFirstApi(ApiPrefix + x) == StripApiPrefix(ApiPrefix + x) == x
  {
    var p := ApiPrefix + x;
    assert p[0..|ApiPrefix|] == ApiPrefix;
    assert FindFrom(p, ApiPrefix, 0) == Some(0);
    StripApiPrefixAdded(x);
  }

  /** Elsewhere they differ: the unanchored removal also cuts a `/api/` inside the path. */
  lemma RemoveFirstApiInside()
    ensures RemoveFirstApi("/v1/api/users") == "/v1users"
    ensures StripApiPrefix("/v1/api/users") == "/v1/api/users"
  {
    var p := "/v1/api/users";
    assert p[0..5][1] == 'v' && p[1..6][0] == 'v' && p[2..7][0] == '1';
    assert p[3..8] == ApiPrefix;
    assert FindFrom(p, ApiPrefix, 0) == Some(3);
    assert p[..3] + p[8..] == "/v1users";
  }

  /** `s.replace(/\/$/, '')`: one trailing `/` is removed. */
  function StripTrailingSlash(s: string): (r: string)
    ensures r == s || (s == r + "/")
    ensures r == s <==> (s == [] || s[|s| - 1] != '/')
  {
    if s != [] && s[|s| - 1] == '/' then s[..|s| - 1] else s
  }

  /** Where the run of characters other than `/` that starts at `i` stops. */
  function SegmentEnd(s: string, i: nat): (e: nat)
    requires i <= |s|
    ensures i <= e <= |s| && (e < |s| ==> s[e] == '/')
    ensures forall k :: i <= k < e ==> s[k] != '/'
    decreases |s| - i
  {
    if i < |s| && s[i] != '/' then SegmentEnd(s, i + 1) else i
  }

  /** `SegmentEnd` stops at the first `/` after `i`, or at the end. */
  lemma {:induction false} SegmentEndOf(s: string, i: nat, e: nat)
    requires i <= e <= |s| && (e < |s| ==> s[e] == '/') && forall k :: i <= k < e ==> s[k] != '/'
    ensures SegmentEnd(s, i) == e
    decreases e - i
  {
    if i < e {
      SegmentEndOf(s, i + 1, e);
    }
  }

  /** The text that follows a segment: nothing, or another `/`. */
  predicate SegmentBoundary(s: string) {
    s == [] || s[0] == '/'
  }

  /** A match of `\/:[^\/]+` starts `s`. */
  predicate ParamAtStart(s: string) {
    |s| >= 3 && s[0] == '/' && s[1] == ':' && s[2] != '/'
  }

  /** No `/:` in `s` is followed by a character other than `/`. */
  predicate NoParam(s: string) {
    forall i :: 0 <= i < |s| - 2 ==> !(s[i] == '/' && s[i + 1] == ':' && s[i + 2] != '/')
  }

  /**
   * `s.replace(/\/:[^\/]+/g, '/[id]')`: every `/` followed by `:` and a
   * non-empty name becomes `/[id]`, the name running to the next `/`.
   */
  function ParamsToId(s: string): (r: string)
    ensures s == [] <==> r == []
    ensures s != [] ==> r[0] == s[0]
    ensures NoParam(r)
    decreases |s|
  {
    if s == [] then []
    else if ParamAtStart(s) then
      var rest := s[SegmentEnd(s, 2)..];
      var r := ParamsToId(rest);
      assert forall i :: 0 <= i < |r| - 2 ==> ("/[id]" + r)[i + 5] == r[i];
      "/[id]" + r
    else
      var r := ParamsToId(s[1..]);
      assert forall i :: 0 <= i < |r| - 2 ==> ([s[0]] + r)[i + 1] == r[i];
      assert s[0] == '/' && |s| >= 2 && s[1] == ':' ==> r[0] == ':' && (|s| >= 3 ==> ParamsToId(s[2..])[0] == '/');
      assert s[0] == '/' && |s| >= 3 && s[1] == ':' ==> r == [':'] + ParamsToId(s[2..]);
      [s[0]] + r
  }

  /** A path with no parameter segment is left as it is. */
  lemma {:induction false} ParamsToIdNoParam(s: string)
    requires NoParam(s)
    ensures ParamsToId(s) == s
    decreases |s|
  {
    if s != [] {
      assert !ParamAtStart(s);
      assert forall i :: 0 <= i < |s[1..]| - 2 ==> s[1..][i] == s[i + 1];
      ParamsToIdNoParam(s[1..]);
    }
  }

  /** The rewrite works segment by segment: it can be split before any `/`. */
  lemma {:induction false} ParamsToIdAppend(pre: string, rest: string)
    requires SegmentBoundary(rest)
    ensures ParamsToId(pre + rest) == ParamsToId(pre) + ParamsToId(rest)
    decreases |pre|
  {
    var s := pre + rest;
    if pre != [] {
      if ParamAtStart(s) {
        assert |pre| >= 3;
        assert ParamAtStart(pre);
        var e := SegmentEnd(pre, 2);
        SegmentEndOf(s, 2, e);
        assert s[e..] == pre[e..] + rest;
        ParamsToIdAppend(pre[e..], rest);
        AppendAssoc("/[id]", ParamsToId(pre[e..]), ParamsToId(rest));
      } else {
        assert !ParamAtStart(pre);
        assert s[1..] == pre[1..] + rest;
        ParamsToIdAppend(pre[1..], rest);
        AppendAssoc([s[0]], ParamsToId(pre[1..]), ParamsToId(rest));
      }
    } else {
      assert s == rest;
    }
  }

  /** A segment `:name` becomes `[id]`, whatever the name. */
  lemma ParamsToIdParam(name: string, post: string)
    requires name != [] && '/' !in name && SegmentBoundary(post)
    ensures ParamsToId("/:" + name + post) == "/[id]" + ParamsToId(post)
  {
    var s := "/:" + name + post;
    assert ParamAtStart(s);
    SegmentEndOf(s, 2, 2 + |name|);
    assert s[2 + |name|..] == post;
  }

  /** Text without `/` is copied. */
  lemma {:induction false} ParamsToIdKeeps(g: string)
    requires '/' !in g
    ensures ParamsToId(g) == g
    decreases |g|
  {
    if g != [] {
      assert g[1..] == g[1..];
      ParamsToIdKeeps(g[1..]);
    }
  }

  /** Paths that differ only in the name of one parameter are rewritten alike. */
  lemma ParamNameIrrelevant(pre: string, x: string, y: string, post: string)
    requires x != [] && y != [] && '/' !in x && '/' !in y && SegmentBoundary(post)
    ensures ParamsToId(pre + "/:" + x + post) == ParamsToId(pre + "/:" + y + post)
  {
    var sx, sy := "/:" + x + post, "/:" + y + post;
    assert pre + "/:" + x + post == pre + sx;
    assert pre + "/:" + y + post == pre + sy;
    ParamsToIdAppend(pre, sx);
    ParamsToIdAppend(pre, sy);
    ParamsToIdParam(x, post);
    ParamsToIdParam(y, post);
  }

  /**
   * `s.replace(/\/:[^\/]+$/g, '/[id]')`: a parameter segment is rewritten
   * only when it ends the path.
   */
  function EndParamToId(s: string): string
    decreases |s|
  {
    if s == [] then []
    else if ParamAtStart(s) && SegmentEnd(s, 2) == |s| then "/[id]"
    else [s[0]] + EndParamToId(s[1..])
  }

  /** After the global rewrite no parameter segment is left, so the anchored one changes nothing. */
  lemma {:induction false} EndParamToIdNoParam(s: string)
    requires NoParam(s)
    ensures EndParamToId(s) == s
    decreases |s|
  {
    if s != [] {
      assert !ParamAtStart(s);
      assert forall i :: 0 <= i < |s[1..]| - 2 ==> s[1..][i] == s[i + 1];
      EndParamToIdNoParam(s[1..]);
    }
  }

  /**
   * The group key of the bridge scripts:
   * `p.replace(/\/:[^\/]+/g, '/[id]').replace(/\/$/, '') || 'index'`.
   */
  function GroupKey(p: string): (k: string)
    ensures k != []
  {
    var c := StripTrailingSlash(ParamsToId(p));
    if c == [] then "index" else c
  }

  /** An empty path, or a lone `/`, is keyed `index`. */
  lemma GroupKeyEmpty()
    ensures GroupKey("") == "index" && GroupKey("/") == "index"
  {
    assert ParamsToId("/") == "/" + ParamsToId("");
  }

  /** A path without parameters is keyed by itself, less one trailing `/`. */
  lemma GroupKeyNoParam(p: string)
    requires NoParam(p) && StripTrailingSlash(p) != []
    ensures GroupKey(p) == StripTrailingSlash(p)
  {
    ParamsToIdNoParam(p);
  }

  /** Routes that differ only in a parameter's name share a group. */
  lemma GroupKeyParamName(pre: string, x: string, y: string, post: string)
    requires x != [] && y != [] && '/' !in x && '/' !in y && SegmentBoundary(post)
    ensures GroupKey(pre + "/:" + x + post) == GroupKey(pre + "/:" + y + post)
  {
    ParamNameIrrelevant(pre, x, y, post);
  }

  /**
   * `normalizePath` of the Vercel bridge generator: the group key with the
   * extra anchored rewrite of a final parameter segment.
   */
  function NormalizePath(p: string): (r: string)
    ensures r != []
  {
    var c := StripTrailingSlash(EndParamToId(ParamsToId(p)));
    if c == [] then "index" else c
  }

  /** The extra rewrite is redundant: `normalizePath` is the group key of the other bridges. */
  lemma NormalizePathIsGroupKey(p: string)
    ensures NormalizePath(p) == GroupKey(p)
  {
    EndParamToIdNoParam(ParamsToId(p));
  }

  /** A match of `:([^\/]+)` starts `s`. */
  predicate NamedParamAtStart(s: string) {
    |s| >= 2 && s[0] == ':' && s[1] != '/'
  }

  /**
   * `s.replace(/:([^\/]+)/g, '[$1]')`: every `:name` becomes `[name]`, the
   * name running to the next `/`.
   */
  function ParamsToBrackets(s: string): (r: string)
    ensures ':' !in s ==> r == s
    decreases |s|
  {
    if s == [] then []
    else if NamedParamAtStart(s) then
      var e := SegmentEnd(s, 1);
      "[" + s[1..e] + "]" + ParamsToBrackets(s[e..])
    else
      [s[0]] + ParamsToBrackets(s[1..])
  }

  /** A parameter segment `:name` becomes `[name]`. */
  lemma ParamsToBracketsParam(name: string, post: string)
    requires name != [] && '/' !in name && SegmentBoundary(post)
    ensures ParamsToBrackets(":" + name + post) == "[" + name + "]" + ParamsToBrackets(post)
  {
    var s := ":" + name + post;
    SegmentEndOf(s, 1, 1 + |name|);
    assert s[1..1 + |name|] == name;
    assert s[1 + |name|..] == post;
  }

  /** Where the run of characters other than `]` that starts at `i` stops. */
  function CloseEnd(s: string, i: nat): (e: nat)
    requires i <= |s|
    ensures i <= e <= |s| && (e < |s| ==> s[e] == ']')
    ensures forall k :: i <= k < e ==> s[k] != ']'
    decreases |s| - i
  {
    if i < |s| && s[i] != ']' then CloseEnd(s, i + 1) else i
  }

  lemma {:induction false} CloseEndOf(s: string, i: nat, e: nat)
    requires i <= e < |s| && s[e] == ']' && forall k :: i <= k < e ==> s[k] != ']'
    ensures CloseEnd(s, i) == e
    decreases e - i
  {
    if i < e {
      CloseEndOf(s, i + 1, e);
    }
  }

  /** A match of `\[([^\]]+)\]` starts `s`. */
  predicate BracketAtStart(s: string) {
    |s| >= 2 && s[0] == '[' && s[1] != ']' && CloseEnd(s, 1) < |s|
  }

  /** `s.replace(/\[([^\]]+)\]/g, ':$1')`: every `[name]` becomes `:name`. */
  function BracketsToParams(s: string): (r: string)
    ensures '[' !in s ==> r == s
    decreases |s|
  {
    if s == [] then []
    else if BracketAtStart(s) then
      var e := CloseEnd(s, 1);
      ":" + s[1..e] + BracketsToParams(s[e + 1..])
    else
      [s[0]] + BracketsToParams(s[1..])
  }

  /** The conversion to brackets adds no character but `[` and `]`. */
  lemma {:induction false} ParamsToBracketsAdds(p: string, c: char)
    requires c !in p && c != '[' && c != ']'
    ensures c !in ParamsToBrackets(p)
    decreases |p|
  {
    if p != [] {
      if NamedParamAtStart(p) {
        var e := SegmentEnd(p, 1);
        assert forall k :: 0 <= k < |p[1..e]| ==> p[1..e][k] == p[1 + k];
        assert forall k :: 0 <= k < |p[e..]| ==> p[e..][k] == p[e + k];
        ParamsToBracketsAdds(p[e..], c);
      } else {
        assert forall k :: 0 <= k < |p[1..]| ==> p[1..][k] == p[1 + k];
        ParamsToBracketsAdds(p[1..], c);
      }
    }
  }

  /** Turning brackets back into parameters undoes the conversion, on paths without brackets. */
  lemma {:induction false} BracketsParamsRoundTrip(p: string)
    requires '[' !in p && ']' !in p
    ensures BracketsToParams(ParamsToBrackets(p)) == p
    decreases |p|
  {
    if p != [] {
      if NamedParamAtStart(p) {
        var e := SegmentEnd(p, 1);
        NoBracketsAfter(p, e);
        BracketsParamsRoundTrip(p[e..]);
        ParamBack(p, e);
      } else {
        BracketsParamsRoundTrip(p[1..]);
        PlainBack(p);
      }
    }
  }

  lemma NoBracketsAfter(p: string, e: nat)
    requires e <= |p| && ']' !in p
    ensures ']' !in p[e..]
    ensures '[' !in p ==> '[' !in p[e..]
  {
    assert forall k :: 0 <= k < |p[e..]| ==> p[e..][k] == p[e + k];
  }

  /** A leading parameter turns into brackets and back, given that the rest of the path does. */
  lemma ParamBack(p: string, e: nat)
    requires NamedParamAtStart(p) && e == SegmentEnd(p, 1) && ']' !in p
    requires BracketsToParams(ParamsToBrackets(p[e..])) == p[e..]
    ensures BracketsToParams(ParamsToBrackets(p)) == p
  {
    var name, q := p[1..e], ParamsToBrackets(p[e..]);
    ParamToBrackets(p, e);
    ParamPieces(p, e);
    BracketBack(name, q);
  }

  lemma ParamToBrackets(p: string, e: nat)
    requires NamedParamAtStart(p) && e == SegmentEnd(p, 1)
    ensures ParamsToBrackets(p) == "[" + p[1..e] + "]" + ParamsToBrackets(p[e..])
  {
  }

  lemma ParamPieces(p: string, e: nat)
    requires NamedParamAtStart(p) && e == SegmentEnd(p, 1) && ']' !in p
    ensures p[1..e] != [] && ']' !in p[1..e] && p == ":" + p[1..e] + p[e..]
  {
    NoBracketsAfter(p[..e], 1);
    assert p[..e][1..] == p[1..e];
    assert p == p[..e] + p[e..];
    assert p[..e] == [':'] + p[1..e];
  }

  /** A bracketed name at the start turns back into `:name`. */
  lemma BracketBack(name: string, rest: string)
    requires name != [] && ']' !in name
    ensures BracketsToParams("[" + name + "]" + rest) == ":" + name + BracketsToParams(rest)
  {
    var s := "[" + name + "]" + rest;
    CloseEndOf(s, 1, 1 + |name|);
    assert s[1..1 + |name|] == name;
    assert s[|name| + 2..] == rest;
  }

  /** A first character that starts no parameter is kept by both conversions. */
  lemma PlainBack(p: string)
    requires p != [] && !NamedParamAtStart(p) && p[0] != '['
    ensures BracketsToParams(ParamsToBrackets(p)) == [p[0]] + BracketsToParams(ParamsToBrackets(p[1..]))
  {
    var q := ParamsToBrackets(p);
    assert q == [p[0]] + ParamsToBrackets(p[1..]);
    assert q[1..] == ParamsToBrackets(p[1..]);
    assert !BracketAtStart(q);
  }

  /** No line terminator occurs in `s`. */
  predicate SingleLine(s: string) {
    forall i :: 0 <= i < |s| ==> !IsLineTerminator(s[i])
  }

  /** The catch-all segment of the App Router. */
  const Slug: string := "[...slug]"

  /**
   * `s.replace(/\*.*$/, '[...slug]')`: from the first `*` that is followed
   * by no line terminator, the rest becomes `[...slug]` (`.` does not match
   * a line terminator).
   */
  function StarToSlug(s: string): (r: string)
    ensures '*' !in s ==> r == s
    decreases |s|
  {
    if s == [] then []
    else if s[0] == '*' && SingleLine(s[1..]) then Slug
    else [s[0]] + StarToSlug(s[1..])
  }

  /** A path the rewrite changes ends in `[...slug]`. */
  lemma {:induction false} StarToSlugEnds(s: string)
    ensures var r := StarToSlug(s); r != s ==> |r| >= |Slug| && r[|r| - |Slug|..] == Slug
    decreases |s|
  {
    if s != [] && !(s[0] == '*' && SingleLine(s[1..])) {
      var t := StarToSlug(s[1..]);
      assert StarToSlug(s) == [s[0]] + t;
      if [s[0]] + t != s {
        assert t != s[1..];
        StarToSlugEnds(s[1..]);
        assert ([s[0]] + t)[|t| + 1 - |Slug|..] == t[|t| - |Slug|..];
      }
    }
  }

  /** On a one-line path, everything from the first `*` on becomes `[...slug]`. */
  lemma {:induction false} StarToSlugFirst(s: string, k: nat)
    requires k < |s| && s[k] == '*' && '*' !in s[..k] && SingleLine(s)
    ensures StarToSlug(s) == s[..k] + Slug
    decreases k
  {
    SingleLineTail(s);
    if k > 0 {
      NoStarTail(s, k);
      StarToSlugFirst(s[1..], k - 1);
      assert StarToSlug(s) == [s[0]] + StarToSlug(s[1..]);
      assert s[..k][1..] == s[1..k];
      ConsAppend(s[..k], Slug);
    } else {
      assert s[..k] + Slug == Slug;
    }
  }

  lemma SingleLineTail(s: string)
    requires s != [] && SingleLine(s)
    ensures SingleLine(s[1..])
  {
    forall i | 0 <= i < |s[1..]| ensures !IsLineTerminator(s[1..][i]) {
      assert s[1..][i] == s[i + 1];
    }
  }

  lemma NoStarTail(s: string, k: nat)
    requires 0 < k < |s| && '*' !in s[..k]
    ensures s[0] != '*' && '*' !in s[1..][..k - 1]
  {
    assert s[0] in s[..k];
    assert s[1..][..k - 1] == s[1..k];
    assert forall c :: c in s[1..k] ==> c in s[..k];
  }

  /** `s.replace(/\/+/g, '/')`: every run of `/` becomes one. */
  function CollapseSlashes(s: string): (r: string)
    ensures s == [] <==> r == []
    ensures s != [] ==> r[0] == s[0]
    decreases |s|
  {
    if s == [] then []
    else if s[0] == '/' then ['/'] + CollapseSlashes(s[SlashRunEnd(s, 0)..])
    else [s[0]] + CollapseSlashes(s[1..])
  }

  /** After collapsing, no two `/` are adjacent. */
  lemma {:induction false} CollapseSlashesNoDouble(s: string)
    ensures NoDoubleSlash(CollapseSlashes(s))
    decreases |s|
  {
    if s != [] {
      var rest := if s[0] == '/' then s[SlashRunEnd(s, 0)..] else s[1..];
      var r := CollapseSlashes(rest);
      CollapseSlashesNoDouble(rest);
      assert CollapseSlashes(s) == [s[0]] + r;
      assert s[0] == '/' && r != [] ==> r[0] != '/';
      assert forall i :: 0 <= i < |r| - 1 ==> ([s[0]] + r)[i + 1] == r[i];
    }
  }

  /** Where the run of `/` that starts at `i` stops. */
  function SlashRunEnd(s: string, i: nat): (e: nat)
    requires i <= |s|
    ensures i <= e <= |s| && (e < |s| ==> s[e] != '/')
    ensures forall k :: i <= k < e ==> s[k] == '/'
    decreases |s| - i
  {
    if i < |s| && s[i] == '/' then SlashRunEnd(s, i + 1) else i
  }

  /** No two `/` are adjacent. */
  predicate NoDoubleSlash(s: string) {
    forall i :: 0 <= i < |s| - 1 ==> !(s[i] == '/' && s[i + 1] == '/')
  }

  /** A path with no repeated `/` is left as it is. */
  lemma {:induction false} CollapseSlashesKeeps(s: string)
    requires NoDoubleSlash(s)
    ensures CollapseSlashes(s) == s
    decreases |s|
  {
    if s != [] {
      assert NoDoubleSlash(s[1..]) by {
        assert forall i :: 0 <= i < |s[1..]| ==> s[1..][i] == s[i + 1];
      }
      if s[0] == '/' {
        assert |s| == 1 || s[1] != '/';
        assert SlashRunEnd(s, 1) == 1;
      }
      CollapseSlashesKeeps(s[1..]);
    }
  }

  /** A prefix with no repeated `/` and no final `/` is kept as it is in front of any text. */
  lemma {:induction false} CollapseSlashesPrefix(a: string, b: string)
    requires NoDoubleSlash(a) && (a == [] || a[|a| - 1] != '/')
    ensures CollapseSlashes(a + b) == a + CollapseSlashes(b)
    decreases |a|
  {
    if a != [] {
      var s := a + b;
      NoDoubleSlashTail(a);
      assert s[1..] == a[1..] + b;
      if a[0] == '/' {
        assert |a| >= 2 && a[1] != '/';
      }
      CollapseSlashesHead(s);
      CollapseSlashesPrefix(a[1..], b);
      ConsAppend(a, CollapseSlashes(b));
    } else {
      assert a + b == b;
    }
  }

  lemma NoDoubleSlashTail(a: string)
    requires a != [] && NoDoubleSlash(a)
    ensures NoDoubleSlash(a[1..])
  {
    assert forall i :: 0 <= i < |a[1..]| ==> a[1..][i] == a[i + 1];
  }

  /** A first character that does not start a run of `/` is kept and the rest collapsed. */
  lemma CollapseSlashesHead(s: string)
    requires s != [] && (s[0] == '/' ==> |s| >= 2 && s[1] != '/')
    ensures CollapseSlashes(s) == [s[0]] + CollapseSlashes(s[1..])
  {
    if s[0] == '/' {
      assert SlashRunEnd(s, 0) == 1;
    }
  }

  /** The text after `/api/` is collapsed behind a `/api` that stays in front. */
  lemma CollapsedApiPath(apiPath: string)
    ensures var c := CollapseSlashes(ApiPrefix + apiPath);
      && |c| >= 5 && c[..4] == "/api" && c[4] == '/' && NoDoubleSlash(c)
  {
    assert ApiPrefix + apiPath == "/api" + ("/" + apiPath);
    CollapseSlashesPrefix("/api", "/" + apiPath);
    CollapseSlashesNoDouble(ApiPrefix + apiPath);
  }

  /** Removing one trailing `/` from text with no repeated `/` leaves no trailing `/`. */
  lemma StripTrailingSlashOnce(c: string)
    requires |c| >= 2
    requires NoDoubleSlash(c)
    ensures var r := StripTrailingSlash(c); r != [] && r[|r| - 1] != '/' && NoDoubleSlash(r) && r == c[..|r|]
  {
  }

  /**
   * `fullApiPath` of the bridge scripts: `/api/` and the group key (none for
   * `index`), with runs of `/` collapsed and a trailing `/` removed, or
   * `/api` when nothing is left.
   */
  function FullApiPath(key: string): (r: string)
    ensures StartsWith(r, "/api") && NoDoubleSlash(r) && r[|r| - 1] != '/'
  {
    var apiPath := if key == "index" then "" else key;
    var c := StripTrailingSlash(CollapseSlashes(ApiPrefix + apiPath));
    CollapsedApiPath(apiPath);
    StripTrailingSlashOnce(CollapseSlashes(ApiPrefix + apiPath));
    if c == [] then "/api" else c
  }

  /** The `index` group is served at `/api`. */
  lemma FullApiPathIndex()
    ensures FullApiPath("index") == "/api"
  {
    assert ApiPrefix + "" == "/api" + "/";
    CollapseSlashesPrefix("/api", "/");
    assert CollapseSlashes("/") == "/";
    assert ("/api" + "/")[..4] == "/api";
  }

  /** A key made of non-empty segments is served at `/api/` followed by the key. */
  lemma FullApiPathKey(key: string)
    requires key != "index" && key != [] && key[0] != '/' && key[|key| - 1] != '/' && NoDoubleSlash(key)
    ensures FullApiPath(key) == ApiPrefix + key
  {
    var s := ApiPrefix + key;
    assert NoDoubleSlash(s) by {
      forall i | 0 <= i < |s| - 1 ensures !(s[i] == '/' && s[i + 1] == '/') {
        if i >= |ApiPrefix| {
          assert s[i] == key[i - |ApiPrefix|] && s[i + 1] == key[i + 1 - |ApiPrefix|];
        }
      }
    }
    CollapseSlashesKeeps(s);
  }

  /** Collapsing runs of `/` keeps every other character. */
  lemma {:induction false} CollapseSlashesKeepsChar(s: string, c: char)
    requires c != '/' && c in s
    ensures c in CollapseSlashes(s)
    decreases |s|
  {
    if s[0] != c {
      var rest := if s[0] == '/' then s[SlashRunEnd(s, 0)..] else s[1..];
      var i :| 0 <= i < |s| && s[i] == c;
      if s[0] == '/' {
        assert rest[i - SlashRunEnd(s, 0)] == c;
      } else {
        assert rest[i - 1] == c;
      }
      CollapseSlashesKeepsChar(rest, c);
      assert CollapseSlashes(s) == [s[0]] + CollapseSlashes(rest);
    }
  }

  /** The full API path of a group keeps every character of its key other than `/`. */
  lemma FullApiPathKeepsChar(key: string, c: char)
    requires key != "index" && c != '/' && c in key
    ensures c in FullApiPath(key)
  {
    var s := ApiPrefix + key;
    var i :| 0 <= i < |key| && key[i] == c;
    assert s[|ApiPrefix| + i] == c;
    CollapseSlashesKeepsChar(s, c);
    var col := CollapseSlashes(s);
    var j :| 0 <= j < |col| && col[j] == c;
    var r := StripTrailingSlash(col);
    assert j < |r| && r[j] == c;
  }

  /** A parameter segment leaves `[id]` in the group key. */
  lemma GroupKeyOfParam(pre: string, x: string, post: string)
    requires x != [] && '/' !in x && SegmentBoundary(post)
    ensures '[' in GroupKey(pre + "/:" + x + post)
  {
    var rest := "/:" + x + post;
    assert pre + "/:" + x + post == pre + rest;
    ParamsToIdAppend(pre, rest);
    ParamsToIdParam(x, post);
    var t := ParamsToId(pre) + ("/[id]" + ParamsToId(post));
    assert t[|ParamsToId(pre)| + 1] == '[';
    var r := StripTrailingSlash(t);
    assert |ParamsToId(pre)| + 1 < |r|;
    assert r[|ParamsToId(pre)| + 1] == '[';
  }
}
