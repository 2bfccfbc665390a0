/**
 * The string operations of JavaScript that the route scripts rely on:
 * the `\s` character class and `trim()`, `split` and `join` on one
 * separator character, `toUpperCase`/`toLowerCase` restricted to ASCII,
 * and `includes` on substrings.
 */
module Text {

  import opened Wrappers

  /** JavaScript's `\s` class; `String.prototype.trim` removes exactly these characters. */
  predicate IsSpace(c: char) {
    || c == ' ' || c == '\t' || c == '\n' || c == '\r' || c == '\U{000B}' || c == '\U{000C}'
    || c == '\U{00A0}' || c == '\U{1680}' || ('\U{2000}' <= c <= '\U{200A}')
    || c == '\U{2028}' || c == '\U{2029}' || c == '\U{202F}' || c == '\U{205F}'
    || c == '\U{3000}' || c == '\U{FEFF}'
  }

  /** Line terminators: the characters the regular-expression `.` does not match. */
  predicate IsLineTerminator(c: char) {
    c == '\n' || c == '\r' || c == '\U{2028}' || c == '\U{2029}'
  }

  function TrimStart(s: string): (r: string)
    ensures |r| <= |s| && r == s[|s| - |r|..]
    ensures r == [] || !IsSpace(r[0])
    ensures forall i :: 0 <= i < |s| - |r| ==> IsSpace(s[i])
  {
    if s != [] && IsSpace(s[0]) then TrimStart(s[1..]) else s
  }

  function TrimEnd(s: string): (r: string)
    ensures |r| <= |s| && r == s[..|r|]
    ensures r == [] || !IsSpace(r[|r| - 1])
    ensures forall i :: |r| <= i < |s| ==> IsSpace(s[i])
  {
    if s != [] && IsSpace(s[|s| - 1]) then TrimEnd(s[..|s| - 1]) else s
  }

  /** `s.trim()`: drops leading and trailing white space and nothing else. */
  function Trim(s: string): (r: string)
    ensures exists i, j ::
      && 0 <= i <= j <= |s| && r == s[i..j]
      && (forall k :: 0 <= k < i ==> IsSpace(s[k]))
      && (forall k :: j <= k < |s| ==> IsSpace(s[k]))
    ensures r == [] || (!IsSpace(r[0]) && !IsSpace(r[|r| - 1]))
  {
    var t := TrimStart(s);
    var u := TrimEnd(t);
    SliceOfSuffix(s, t, u);
    u
  }

  /** A prefix `u` of a suffix `t` of `s` is a slice of `s`, and what `t` has after `u` is what `s` has after it. */
  lemma SliceOfSuffix(s: string, t: string, u: string)
    requires |t| <= |s| && t == s[|s| - |t|..]
    requires |u| <= |t| && u == t[..|u|]
    requires forall k :: |u| <= k < |t| ==> IsSpace(t[k])
    ensures u == s[|s| - |t|..|s| - |t| + |u|]
    ensures forall k :: |s| - |t| + |u| <= k < |s| ==> IsSpace(s[k])
  {
    var i := |s| - |t|;
    forall k | i + |u| <= k < |s|
      ensures IsSpace(s[k])
    {
      assert s[k] == t[k - i];
    }
  }

  /** Index of the first `c` in `s`, or `|s|` when there is none. */
  function IndexOfChar(s: string, c: char): (k: nat)
    ensures k <= |s|
    ensures k < |s| ==> s[k] == c
    ensures forall i :: 0 <= i < k ==> s[i] != c
  {
    if s == [] then 0
    else if s[0] == c then 0
    else 1 + IndexOfChar(s[1..], c)
  }

  /** `s.split(sep)` for a one-character separator: never empty, `""` gives `[""]`. */
  function Split(s: string, sep: char): (parts: seq<string>)
    ensures |parts| >= 1
    ensures forall p :: p in parts ==> sep !in p
    decreases |s|
  {
    var k := IndexOfChar(s, sep);
    if k == |s| then [s] else [s[..k]] + Split(s[k + 1..], sep)
  }

  /** `parts.join(sep)` for a one-character separator. */
  function Join(parts: seq<string>, sep: char): string {
    if parts == [] then []
    else if |parts| == 1 then parts[0]
    else parts[0] + [sep] + Join(parts[1..], sep)
  }

  /** Joining the pieces of a split gives back the original text. */
  lemma {:induction false} JoinSplit(s: string, sep: char)
    ensures Join(Split(s, sep), sep) == s
    decreases |s|
  {
    var k := IndexOfChar(s, sep);
    if k < |s| {
      var rest := Split(s[k + 1..], sep);
      JoinSplit(s[k + 1..], sep);
      assert Split(s, sep) == [s[..k]] + rest;
      assert Join(Split(s, sep), sep) == s[..k] + [sep] + Join(rest, sep);
      assert s == s[..k] + [sep] + s[k + 1..];
    }
  }

  /** Splitting a join of separator-free pieces gives back the pieces. */
  lemma {:induction false} SplitJoin(parts: seq<string>, sep: char)
    requires |parts| >= 1
    requires forall p :: p in parts ==> sep !in p
    ensures Split(Join(parts, sep), sep) == parts
    decreases |parts|
  {
    if |parts| > 1 {
      var s := Join(parts, sep);
      var tail := Join(parts[1..], sep);
      assert s == parts[0] + [sep] + tail;
      IndexOfPrefix(parts[0], sep, tail);
      assert s[..|parts[0]|] == parts[0];
      assert s[|parts[0]| + 1..] == tail;
      SplitJoin(parts[1..], sep);
    } else {
      assert Join(parts, sep) == parts[0];
      IndexOfAbsent(parts[0], sep);
    }
  }

  /** Joining two non-empty lists of pieces puts one separator between their joins. */
  lemma {:induction false} JoinAppend(a: seq<string>, b: seq<string>, sep: char)
    requires a != [] && b != []
    ensures Join(a + b, sep) == Join(a, sep) + [sep] + Join(b, sep)
    decreases |a|
  {
    if |a| == 1 {
      assert (a + b)[1..] == b;
    } else {
      assert (a + b)[1..] == a[1..] + b;
      JoinAppend(a[1..], b, sep);
    }
  }

  /** Splitting at a separator splits the two sides independently. */
  lemma {:induction false} SplitAppend(a: string, b: string, sep: char)
    ensures Split(a + [sep] + b, sep) == Split(a, sep) + Split(b, sep)
    decreases |a|
  {
    var s := a + [sep] + b;
    var k := IndexOfChar(a, sep);
    if k == |a| {
      SplitAppendFirst(a, b, sep);
    } else {
      IndexOfExtend(a, [sep] + b, sep);
      assert s == a + ([sep] + b);
      var rest := a[k + 1..];
      assert s[..k] == a[..k];
      assert s[k + 1..] == rest + [sep] + b;
      calc {
        Split(s, sep);
        == { SplitAt(s, sep); }
        [a[..k]] + Split(rest + [sep] + b, sep);
        == { SplitAppend(rest, b, sep); }
        [a[..k]] + (Split(rest, sep) + Split(b, sep));
        == ([a[..k]] + Split(rest, sep)) + Split(b, sep);
        == { SplitAt(a, sep); }
        Split(a, sep) + Split(b, sep);
      }
    }
  }

  /** A split cuts at the first separator and goes on after it. */
  /** Putting the first character back in front of the rest of `a` followed by `c`. */
  lemma ConsAppend(a: string, c: string)
    requires a != []
    ensures [a[0]] + (a[1..] + c) == a + c
  {
    assert [a[0]] + a[1..] == a;
  }

  lemma AppendAssoc(a: string, b: string, c: string)
    ensures a + (b + c) == (a + b) + c
  {
  }

  lemma SplitAt(s: string, sep: char)
    requires IndexOfChar(s, sep) < |s|
    ensures var k := IndexOfChar(s, sep); Split(s, sep) == [s[..k]] + Split(s[k + 1..], sep)
  {
  }

  /** When `a` holds no separator, the one after it is where the split first cuts. */
  lemma SplitAppendFirst(a: string, b: string, sep: char)
    requires IndexOfChar(a, sep) == |a|
    ensures Split(a + [sep] + b, sep) == [a] + Split(b, sep)
  {
    var s := a + [sep] + b;
    IndexOfPrefix(a, sep, b);
    assert s[..|a|] == a;
    assert s[|a| + 1..] == b;
  }

  lemma IndexOfExtend(a: string, t: string, c: char)
    requires IndexOfChar(a, c) < |a|
    ensures IndexOfChar(a + t, c) == IndexOfChar(a, c)
  {
    var k := IndexOfChar(a, c);
    var k' := IndexOfChar(a + t, c);
    assert (a + t)[k] == c;
    if k' < k {
      assert (a + t)[k'] == a[k'];
    }
  }

  lemma {:induction false} IndexOfPrefix(p: string, c: char, tail: string)
    requires c !in p
    ensures IndexOfChar(p + [c] + tail, c) == |p|
    decreases |p|
  {
    if p != [] {
      assert (p + [c] + tail)[1..] == p[1..] + [c] + tail;
      IndexOfPrefix(p[1..], c, tail);
    }
  }

  lemma IndexOfAbsent(p: string, c: char)
    requires c !in p
    ensures IndexOfChar(p, c) == |p|
  {
  }

  /** `s.replace(c, '')` with a one-character string pattern: only the first `c` is removed. */
  function RemoveFirst(s: string, c: char): (r: string)
    ensures c !in s ==> r == s
    ensures c in s ==> exists k :: 0 <= k < |s| && s[k] == c && c !in s[..k] && r == s[..k] + s[k + 1..]
  {
    var k := IndexOfChar(s, c);
    if k == |s| then s else s[..k] + s[k + 1..]
  }

  /** Removing the first `*` of `w` followed by a `*` gives `w` back. */
  lemma RemoveStarAfter(w: string)
    requires '*' !in w
    ensures RemoveFirst(w + "*", '*') == w
  {
    var s := w + "*";
    assert s[|w|] == '*';
    assert IndexOfChar(s, '*') == |w|;
    assert s[..|w|] == w && s[|w| + 1..] == [];
  }

  function UpperChar(c: char): char {
    if 'a' <= c <= 'z' then (c as int - 32) as char else c
  }

  function LowerChar(c: char): char {
    if 'A' <= c <= 'Z' then (c as int + 32) as char else c
  }

  /** `toUpperCase()` on ASCII letters; every other character is kept. */
  function ToUpper(s: string): (r: string)
    ensures |r| == |s|
    ensures forall i :: 0 <= i < |s| ==> r[i] == UpperChar(s[i])
  {
    seq(|s|, i requires 0 <= i < |s| => UpperChar(s[i]))
  }

  /** `toLowerCase()` on ASCII letters; every other character is kept. */
  function ToLower(s: string): (r: string)
    ensures |r| == |s|
    ensures forall i :: 0 <= i < |s| ==> r[i] == LowerChar(s[i])
  {
    seq(|s|, i requires 0 <= i < |s| => LowerChar(s[i]))
  }

  /** Lower-casing an upper-cased lower-case ASCII word gives the word back. */
  lemma LowerUpper(s: string)
    requires forall i :: 0 <= i < |s| ==> 'a' <= s[i] <= 'z'
    ensures ToLower(ToUpper(s)) == s
  {
  }

  predicate OccursAt(s: string, sub: string, i: nat) {
    i + |sub| <= |s| && s[i..i + |sub|] == sub
  }

  /** `s.includes(sub)`. */
  ghost predicate Contains(s: string, sub: string) {
    exists i: nat :: OccursAt(s, sub, i)
  }

  predicate StartsWith(s: string, prefix: string) {
    |prefix| <= |s| && s[..|prefix|] == prefix
  }

  /** Position of the first occurrence of `sub` at or after `from`, as `indexOf` finds it. */
  function FindFrom(s: string, sub: string, from: nat): (r: Option<nat>)
    ensures r.Some? ==> from <= r.value && OccursAt(s, sub, r.value)
    ensures r.Some? ==> forall j: nat :: from <= j < r.value ==> !OccursAt(s, sub, j)
    ensures r.None? ==> forall j: nat :: from <= j ==> !OccursAt(s, sub, j)
    decreases |s| - from
  {
    if from + |sub| > |s| then None
    else if s[from..from + |sub|] == sub then Some(from)
    else FindFrom(s, sub, from + 1)
  }

  /** `includes` decided by the search: true exactly when some occurrence exists. */
  function Includes(s: string, sub: string): (b: bool)
    ensures b <==> Contains(s, sub)
  {
    FindFrom(s, sub, 0).Some?
  }


  /** `includes` of a one-character string is membership. */
  lemma IncludesChar(s: string, c: char)
    ensures Includes(s, [c]) <==> c in s
  {
    if c in s {
      var i :| 0 <= i < |s| && s[i] == c;
      assert s[i..i + 1] == [c];
      assert OccursAt(s, [c], i);
    }
    if Includes(s, [c]) {
      var i: nat :| OccursAt(s, [c], i);
      assert s[i] == s[i..i + 1][0];
    }
  }

  /** Whatever `sub` holds, a text that includes `sub` holds too. */
  lemma IncludesHolds(s: string, sub: string, c: char)
    requires Includes(s, sub) && c in sub
    ensures c in s
  {
    var i: nat :| OccursAt(s, sub, i);
    var k :| 0 <= k < |sub| && sub[k] == c;
    assert s[i + k] == s[i..i + |sub|][k];
  }
}
