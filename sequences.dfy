/**
 * Order-preserving list operations: filtering, flattening, removing
 * duplicates, and the subsequence relation they all establish.
 */
module Sequences {

  /** a can be obtained from b by deleting elements and keeping the rest in order. */
  predicate IsSubsequence<T(==)>(a: seq<T>, b: seq<T>)
    decreases |b|
  {
    if b == [] then a == []
    else
      var n := |b| - 1;
      || IsSubsequence(a, b[..n])
      || (a != [] && a[|a| - 1] == b[n] && IsSubsequence(a[..|a| - 1], b[..n]))
  }

  /** No element occurs twice. */
  predicate NoDuplicates<T(==)>(s: seq<T>) {
    forall i, j :: 0 <= i < j < |s| ==> s[i] != s[j]
  }

  /** The set of elements of s. */
  function Elements<T(==)>(s: seq<T>): set<T> {
    set x | x in s
  }

  /** The elements of s that satisfy keep, in the order they have in s. */
  function Filter<T(==)>(s: seq<T>, keep: T -> bool): (r: seq<T>)
    ensures |r| <= |s|
    ensures forall x :: x in r ==> x in s && keep(x)
    decreases |s|
  {
    if s == [] then []
    else
      var n := |s| - 1;
      assert forall x :: x in s[..n] ==> x in s;
      Filter(s[..n], keep) + (if keep(s[n]) then [s[n]] else [])
  }

  lemma {:induction false} FilterMembers<T>(s: seq<T>, keep: T -> bool, x: T)
    ensures x in Filter(s, keep) <==> x in s && keep(x)
  {
    if s != [] {
      var n := |s| - 1;
      FilterMembers(s[..n], keep, x);
      assert s == s[..n] + [s[n]];
    }
  }

  lemma {:induction false} FilterNone<T>(s: seq<T>, keep: T -> bool)
    requires forall x :: x in s ==> !keep(x)
    ensures Filter(s, keep) == []
  {
    if s != [] {
      var n := |s| - 1;
      assert forall x :: x in s[..n] ==> x in s;
      FilterNone(s[..n], keep);
    }
  }

  lemma {:induction false} FilterIsSubsequence<T>(s: seq<T>, keep: T -> bool)
    ensures IsSubsequence(Filter(s, keep), s)
  {
    if s != [] {
      var n := |s| - 1;
      FilterIsSubsequence(s[..n], keep);
      var r := Filter(s, keep);
      if keep(s[n]) {
        assert r == Filter(s[..n], keep) + [s[n]];
        assert r[..|r| - 1] == Filter(s[..n], keep) && r[|r| - 1] == s[n];
      } else {
        assert r == Filter(s[..n], keep);
      }
    }
  }

  lemma {:induction false} FilterNoDuplicates<T>(s: seq<T>, keep: T -> bool)
    requires NoDuplicates(s)
    ensures NoDuplicates(Filter(s, keep))
  {
    if s != [] {
      var n := |s| - 1;
      FilterNoDuplicates(s[..n], keep);
      assert s[n] !in s[..n];
    }
  }

  lemma {:induction false} NoDuplicatesCardinality<T>(s: seq<T>)
    requires NoDuplicates(s)
    ensures |Elements(s)| == |s|
  {
    if s != [] {
      var n := |s| - 1;
      NoDuplicatesCardinality(s[..n]);
      assert s == s[..n] + [s[n]];
      assert Elements(s) == Elements(s[..n]) + {s[n]};
      assert s[n] !in Elements(s[..n]);
    }
  }

  /** The concatenation of the lists in ss, in order. */
  function Flatten<T>(ss: seq<seq<T>>): seq<T>
    decreases |ss|
  {
    if ss == [] then [] else Flatten(ss[..|ss| - 1]) + ss[|ss| - 1]
  }

  lemma {:induction false} FlattenMembers<T>(ss: seq<seq<T>>, x: T)
    ensures x in Flatten(ss) <==> exists i :: 0 <= i < |ss| && x in ss[i]
  {
    if ss != [] {
      var n := |ss| - 1;
      FlattenMembers(ss[..n], x);
      if x in Flatten(ss[..n]) {
        var i :| 0 <= i < n && x in ss[..n][i];
        assert x in ss[i];
      }
      if exists i :: 0 <= i < |ss| && x in ss[i] {
        var i :| 0 <= i < |ss| && x in ss[i];
        if i < n {
          assert x in ss[..n][i];
        }
      }
    }
  }

  /** s with every repeated element dropped, each element kept at its first occurrence. */
  function Dedup<T(==)>(s: seq<T>): seq<T>
    decreases |s|
  {
    if s == [] then []
    else
      var n := |s| - 1;
      if s[n] in s[..n] then Dedup(s[..n]) else Dedup(s[..n]) + [s[n]]
  }

  lemma {:induction false} DedupProperties<T>(s: seq<T>)
    ensures NoDuplicates(Dedup(s))
    ensures forall x :: x in Dedup(s) <==> x in s
    ensures IsSubsequence(Dedup(s), s)
    ensures forall k :: 0 <= k <= |s| ==> Dedup(s[..k]) <= Dedup(s)
  {
    if s != [] {
      var n := |s| - 1;
      DedupProperties(s[..n]);
      assert s[..|s|] == s;
      forall k | 0 <= k <= n
        ensures Dedup(s[..k]) <= Dedup(s)
      {
        assert s[..n][..k] == s[..k];
      }
      assert s == s[..n] + [s[n]];
      var d := Dedup(s);
      if s[n] !in s[..n] {
        assert d == Dedup(s[..n]) + [s[n]];
        assert d[..|d| - 1] == Dedup(s[..n]) && d[|d| - 1] == s[n];
      }
    }
  }
}
