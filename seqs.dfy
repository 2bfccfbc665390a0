/**
 * Duplicate removal as the scripts do it: a JavaScript `Set` keeps its
 * elements in insertion order, and `filter((m, i, arr) => arr.indexOf(m) === i)`
 * keeps the first occurrence of every element. Both are defined here and
 * proved to agree.
 */
module Seqs {

  predicate Distinct<T(==)>(s: seq<T>) {
    forall i, j :: 0 <= i < j < |s| ==> s[i] != s[j]
  }

  /** `set.add(x)` on a set kept as its insertion-ordered sequence. */
  function AddUnique<T(==)>(acc: seq<T>, x: T): seq<T> {
    if x in acc then acc else acc + [x]
  }

  /** The insertion-ordered contents of a `Set` fed with the elements of `s` in order. */
  function Dedup<T(==)>(s: seq<T>): (r: seq<T>)
    ensures Distinct(r)
    ensures forall i :: 0 <= i < |r| ==> r[i] in s
    ensures forall i :: 0 <= i < |s| ==> s[i] in r
    ensures |r| <= |s|
  {
    if s == [] then []
    else
      var init := s[..|s| - 1];
      assert s == init + [s[|s| - 1]];
      AddUnique(Dedup(init), s[|s| - 1])
  }

  /** `s.indexOf(x)`, with `|s|` standing for -1. */
  function IndexOf<T(==)>(s: seq<T>, x: T): (k: nat)
    ensures k <= |s|
    ensures k < |s| ==> s[k] == x
    ensures forall i :: 0 <= i < k ==> s[i] != x
  {
    if s == [] then 0
    else if s[0] == x then 0
    else 1 + IndexOf(s[1..], x)
  }

  /** The first `n` steps of `s.filter((m, i, arr) => arr.indexOf(m) === i)`. */
  function KeepFirstUpTo<T(==)>(s: seq<T>, n: nat): seq<T>
    requires n <= |s|
  {
    if n == 0 then []
    else KeepFirstUpTo(s, n - 1) + (if IndexOf(s, s[n - 1]) == n - 1 then [s[n - 1]] else [])
  }

  /** `s.filter((m, i, arr) => arr.indexOf(m) === i)`. */
  function KeepFirst<T(==)>(s: seq<T>): seq<T> {
    KeepFirstUpTo(s, |s|)
  }

  /** The indexOf filter and the insertion order of a `Set` give the same sequence. */
  lemma {:induction false} KeepFirstIsDedup<T>(s: seq<T>)
    ensures KeepFirst(s) == Dedup(s)
  {
    KeepFirstUpToIsDedup(s, |s|);
    assert s[..|s|] == s;
  }

  lemma {:induction false} KeepFirstUpToIsDedup<T>(s: seq<T>, n: nat)
    requires n <= |s|
    ensures KeepFirstUpTo(s, n) == Dedup(s[..n])
  {
    if n > 0 {
      KeepFirstUpToIsDedup(s, n - 1);
      var pre := s[..n];
      assert pre[..n - 1] == s[..n - 1];
      assert pre[n - 1] == s[n - 1];
      var x := s[n - 1];
      if IndexOf(s, x) == n - 1 {
        assert x !in s[..n - 1];
      } else {
        assert IndexOf(s, x) < n - 1;
        assert s[..n - 1][IndexOf(s, x)] == x;
      }
    }
  }

  /** A duplicate-free sequence has as many elements as the set of its elements. */
  lemma {:induction false} DistinctCard<T>(s: seq<T>)
    requires Distinct(s)
    ensures |set x | x in s| == |s|
  {
    if s != [] {
      var tail := s[1..];
      assert Distinct(tail);
      DistinctCard(tail);
      assert (set x | x in s) == (set x | x in tail) + {s[0]};
      assert s[0] !in tail;
    }
  }

  /** The number of distinct elements of `s` is the length of its duplicate-free version. */
  lemma DedupCard<T>(s: seq<T>)
    ensures |Dedup(s)| == |set x | x in s|
  {
    DistinctCard(Dedup(s));
    assert (set x | x in Dedup(s)) == (set x | x in s);
  }
}
