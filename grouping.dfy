/**
 * Grouping routes by a normalised key, as the generators do with a `Map`
 * filled in a `forEach`. A JavaScript `Map` iterates its keys in insertion
 * order, so a map is modelled as the sequence of its keys in that order next
 * to a Dafny `map` from key to value. Two kinds of value occur: the list of
 * the routes with that key, and a `Set` of method names kept as its
 * insertion-ordered sequence.
 */
module Grouping {
  import opened Seqs

  /** `xs.map(f)`. */
  function Project<T, U>(xs: seq<T>, f: T -> U): (r: seq<U>)
    ensures |r| == |xs|
    ensures forall i :: 0 <= i < |xs| ==> r[i] == f(xs[i])
  {
    seq(|xs|, i requires 0 <= i < |xs| => f(xs[i]))
  }

  /** Projecting a sequence that starts with `x` starts with the image of `x`. */
  lemma ProjectCons<T, U>(x: T, xs: seq<T>, f: T -> U)
    ensures Project([x] + xs, f) == [f(x)] + Project(xs, f)
  {
    var l, r := Project([x] + xs, f), [f(x)] + Project(xs, f);
    forall i | 0 <= i < |l| ensures l[i] == r[i] {
      if i > 0 {
        assert ([x] + xs)[i] == xs[i - 1];
      }
    }
  }

  /** The keys of the map in insertion order: each key where it is first seen. */
  function Keys<T>(xs: seq<T>, key: T -> string): seq<string> {
    Dedup(Project(xs, key))
  }

  /** The routes pushed onto the list of key `k`, in the order they were met. */
  function Members<T>(xs: seq<T>, key: T -> string, k: string): (r: seq<T>)
    ensures |r| <= |xs|
    ensures forall x :: x in r ==> x in xs && key(x) == k
  {
    if xs == [] then []
    else
      var last := xs[|xs| - 1];
      Members(xs[..|xs| - 1], key, k) + (if key(last) == k then [last] else [])
  }

  /** The `Set` of `val` values collected under key `k`, in insertion order. */
  function MemberSet<T>(xs: seq<T>, key: T -> string, val: T -> string, k: string): seq<string> {
    Dedup(Project(Members(xs, key, k), val))
  }

  /**
   * `groupRoutesByPath`: for each element in order, create the list of its
   * key if the map lacks it, then push the element onto that list.
   */
  method GroupLists<T>(xs: seq<T>, key: T -> string) returns (keys: seq<string>, groups: map<string, seq<T>>)
    ensures keys == Keys(xs, key)
    ensures forall k :: k in groups <==> k in keys
    ensures forall k :: k in groups ==> groups[k] == Members(xs, key, k)
  {
    keys, groups := [], map[];
    for i := 0 to |xs|
      invariant keys == Keys(xs[..i], key)
      invariant forall k :: k in groups <==> k in keys
      invariant forall k :: k in groups ==> groups[k] == Members(xs[..i], key, k)
    {
      var k := key(xs[i]);
      KeysStep(xs, key, i);
      if k !in groups {
        NoMembersOutsideKeys(xs[..i], key, k);
        groups := groups[k := []];
        keys := keys + [k];
      }
      PushStep(xs, key, i, groups);
      groups := groups[k := groups[k] + [xs[i]]];
    }
    assert xs[..|xs|] == xs;
  }

  /** Pushing element `i` onto the list of its key extends every list to the members of `xs[..i + 1]`. */
  lemma PushStep<T>(xs: seq<T>, key: T -> string, i: nat, groups: map<string, seq<T>>)
    requires i < |xs| && key(xs[i]) in groups
    requires forall k :: k in groups ==> groups[k] == Members(xs[..i], key, k)
    ensures var pushed := groups[key(xs[i]) := groups[key(xs[i])] + [xs[i]]];
      forall k :: k in pushed ==> pushed[k] == Members(xs[..i + 1], key, k)
  {
    var pushed := groups[key(xs[i]) := groups[key(xs[i])] + [xs[i]]];
    forall k | k in pushed
      ensures pushed[k] == Members(xs[..i + 1], key, k)
    {
      MembersStep(xs, key, i, k);
    }
  }

  /**
   * The map-of-sets grouping of the Vercel bridges: for each element in order,
   * create an empty `Set` under its key if the map lacks it, then add its value.
   */
  method GroupSets<T>(xs: seq<T>, key: T -> string, val: T -> string) returns (keys: seq<string>, sets: map<string, seq<string>>)
    ensures keys == Keys(xs, key)
    ensures forall k :: k in sets <==> k in keys
    ensures forall k :: k in sets ==> sets[k] == MemberSet(xs, key, val, k)
  {
    keys, sets := [], map[];
    for i := 0 to |xs|
      invariant keys == Keys(xs[..i], key)
      invariant forall k :: k in sets <==> k in keys
      invariant forall k :: k in sets ==> sets[k] == MemberSet(xs[..i], key, val, k)
    {
      var k := key(xs[i]);
      KeysStep(xs, key, i);
      if k !in sets {
        NoMembersOutsideKeys(xs[..i], key, k);
        assert MemberSet(xs[..i], key, val, k) == [];
        sets := sets[k := []];
        keys := keys + [k];
      }
      sets := sets[k := AddUnique(sets[k], val(xs[i]))];
      forall k' | k' in sets
        ensures sets[k'] == MemberSet(xs[..i + 1], key, val, k')
      {
        MemberSetStep(xs, key, val, i, k');
      }
    }
    assert xs[..|xs|] == xs;
  }

  lemma KeysStep<T>(xs: seq<T>, key: T -> string, i: nat)
    requires i < |xs|
    ensures Keys(xs[..i + 1], key) == AddUnique(Keys(xs[..i], key), key(xs[i]))
  {
    var p := Project(xs[..i + 1], key);
    assert p[..|p| - 1] == Project(xs[..i], key);
  }

  lemma MembersStep<T>(xs: seq<T>, key: T -> string, i: nat, k: string)
    requires i < |xs|
    ensures Members(xs[..i + 1], key, k) == Members(xs[..i], key, k) + (if key(xs[i]) == k then [xs[i]] else [])
  {
    assert xs[..i + 1][..i] == xs[..i];
  }

  lemma MemberSetStep<T>(xs: seq<T>, key: T -> string, val: T -> string, i: nat, k: string)
    requires i < |xs|
    ensures MemberSet(xs[..i + 1], key, val, k)
      == (if key(xs[i]) == k then AddUnique(MemberSet(xs[..i], key, val, k), val(xs[i]))
          else MemberSet(xs[..i], key, val, k))
  {
    MembersStep(xs, key, i, k);
    var m := Members(xs[..i], key, k);
    if key(xs[i]) == k {
      var p := Project(m + [xs[i]], val);
      assert p[..|p| - 1] == Project(m, val);
    } else {
      assert Members(xs[..i + 1], key, k) == m;
    }
  }

  /** An element lands in the group of its own key. */
  lemma {:induction false} MemberOfOwnKey<T>(xs: seq<T>, key: T -> string, i: nat)
    requires i < |xs|
    ensures key(xs[i]) in Keys(xs, key)
    ensures xs[i] in Members(xs, key, key(xs[i]))
  {
    assert Project(xs, key)[i] == key(xs[i]);
    var init := xs[..|xs| - 1];
    if i < |xs| - 1 {
      MemberOfOwnKey(init, key, i);
    }
  }

  /** Every key of the map is the key of some element. */
  lemma KeyHasMember<T>(xs: seq<T>, key: T -> string, k: string)
    requires k in Keys(xs, key)
    ensures exists i :: 0 <= i < |xs| && key(xs[i]) == k
  {
    var p := Project(xs, key);
    assert k in p;
    var i :| 0 <= i < |p| && p[i] == k;
    assert key(xs[i]) == k;
  }

  /** A key that is not in the map has no members. */
  lemma {:induction false} NoMembersOutsideKeys<T>(xs: seq<T>, key: T -> string, k: string)
    requires k !in Keys(xs, key)
    ensures Members(xs, key, k) == []
  {
    if xs != [] {
      var n := |xs| - 1;
      KeysStep(xs, key, n);
      assert xs[..n + 1] == xs;
      NoMembersOutsideKeys(xs[..n], key, k);
    }
  }

  /** The members of the groups listed in `ks`, gathered group by group. */
  function Gathered<T>(xs: seq<T>, key: T -> string, ks: seq<string>): multiset<T> {
    if ks == [] then multiset{} else multiset(Members(xs, key, ks[0])) + Gathered(xs, key, ks[1..])
  }

  lemma {:induction false} GatheredAppend<T>(xs: seq<T>, key: T -> string, ks: seq<string>, k: string)
    ensures Gathered(xs, key, ks + [k]) == Gathered(xs, key, ks) + multiset(Members(xs, key, k))
  {
    if ks != [] {
      assert (ks + [k])[1..] == ks[1..] + [k];
      GatheredAppend(xs, key, ks[1..], k);
    }
  }

  /** Adding an element grows the gathering by that element once per occurrence of its key in `ks`. */
  lemma {:induction false} GatheredStep<T>(xs: seq<T>, key: T -> string, ks: seq<string>, x: T)
    requires Distinct(ks)
    ensures Gathered(xs + [x], key, ks)
      == Gathered(xs, key, ks) + (if key(x) in ks then multiset{x} else multiset{})
  {
    if ks != [] {
      assert Distinct(ks[1..]);
      GatheredStep(xs, key, ks[1..], x);
      assert (xs + [x])[..|xs|] == xs;
      if key(x) == ks[0] {
        assert key(x) !in ks[1..];
      }
    }
  }

  /** The groups partition the routes: together they hold every route exactly once. */
  lemma {:induction false} Partition<T>(xs: seq<T>, key: T -> string)
    ensures Gathered(xs, key, Keys(xs, key)) == multiset(xs)
  {
    if xs != [] {
      var n := |xs| - 1;
      var init, x := xs[..n], xs[n];
      assert xs == init + [x];
      Partition(init, key);
      KeysStep(xs, key, n);
      assert xs[..n + 1] == xs;
      var ks := Keys(init, key);
      GatheredStep(init, key, ks, x);
      if key(x) !in ks {
        GatheredAppend(xs, key, ks, key(x));
        NoMembersOutsideKeys(init, key, key(x));
        assert Members(xs, key, key(x)) == [x];
      }
    }
  }
}
