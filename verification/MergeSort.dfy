/**
 Bottom-up mergesort on sequences: what HASH_SRT of src/include/proxy/uthash.h
 computes, and why the result is a stable sorted permutation.
 */
module MergeSort {

  /** cmp is a total preorder on the elements of all; only whether it is positive matters. */
  ghost predicate Ordering<T>(cmp: (T, T) -> int, all: set<T>) {
    && (forall x, y :: x in all && y in all ==> cmp(x, y) <= 0 || cmp(y, x) <= 0)
    && (forall x, y, z :: x in all && y in all && z in all && cmp(x, y) <= 0 && cmp(y, z) <= 0 ==> cmp(x, z) <= 0)
  }

  ghost predicate Within<T>(s: seq<T>, all: set<T>) {
    forall x :: x in s ==> x in all
  }

  predicate Sorted<T>(s: seq<T>, cmp: (T, T) -> int) {
    forall i, j :: 0 <= i < j < |s| ==> cmp(s[i], s[j]) <= 0
  }

  predicate Equivalent<T>(x: T, y: T, cmp: (T, T) -> int) {
    cmp(x, y) <= 0 && cmp(y, x) <= 0
  }

  /** The elements that compare equal to g, in order. */
  function Class<T>(s: seq<T>, g: T, cmp: (T, T) -> int): seq<T> {
    if s == [] then []
    else (if Equivalent(s[0], g, cmp) then [s[0]] else []) + Class(s[1..], g, cmp)
  }

  /** Merging two runs; on a tie the first run goes first. */
  function Merge<T>(p: seq<T>, q: seq<T>, cmp: (T, T) -> int): seq<T> {
    if p == [] then q
    else if q == [] then p
    else if cmp(p[0], q[0]) <= 0 then [p[0]] + Merge(p[1..], q, cmp)
    else [q[0]] + Merge(p, q[1..], cmp)
  }

  function Min(a: nat, b: nat): nat {
    if a < b then a else b
  }

  /** One pass: runs of length w are merged in pairs. */
  function MergePass<T>(s: seq<T>, w: nat, cmp: (T, T) -> int): seq<T>
    requires w >= 1
  {
    if s == [] then []
    else
      var a, b := Min(w, |s|), Min(2 * w, |s|);
      Merge(s[..a], s[a..b], cmp) + MergePass(s[b..], w, cmp)
  }

  /** Passes with runs of length w, 2w, 4w, ... until one merge remains. */
  function SortFrom<T>(s: seq<T>, w: nat, cmp: (T, T) -> int): seq<T>
    requires w >= 1
    decreases |s| - w
  {
    var t := MergePass(s, w, cmp);
    if |s| <= 2 * w then t
    else
      MergePassLength(s, w, cmp);
      SortFrom(t, 2 * w, cmp)
  }

  function Sort<T>(s: seq<T>, cmp: (T, T) -> int): seq<T> {
    SortFrom(s, 1, cmp)
  }

  // ---------- permutation ----------

  lemma ConsMultiset<T>(s: seq<T>)
    requires s != []
    ensures multiset(s) == multiset([s[0]]) + multiset(s[1..])
  {
    assert s == [s[0]] + s[1..];
  }

  lemma {:induction false} MergePermutes<T>(p: seq<T>, q: seq<T>, cmp: (T, T) -> int)
    ensures multiset(Merge(p, q, cmp)) == multiset(p) + multiset(q)
    ensures |Merge(p, q, cmp)| == |p| + |q|
    decreases |p| + |q|
  {
    if p != [] && q != [] {
      if cmp(p[0], q[0]) <= 0 {
        MergePermutes(p[1..], q, cmp);
        ConsMultiset(p);
      } else {
        MergePermutes(p, q[1..], cmp);
        ConsMultiset(q);
      }
    }
  }

  lemma InThree<T>(s: seq<T>, a: nat, b: nat)
    requires a <= b <= |s|
    ensures s == s[..a] + s[a..b] + s[b..]
  {
  }

  lemma ThreeParts<T>(s: seq<T>, a: nat, b: nat)
    requires a <= b <= |s|
    ensures multiset(s) == multiset(s[..a]) + multiset(s[a..b]) + multiset(s[b..])
  {
    InThree(s, a, b);
  }

  lemma {:induction false} MergePassPermutes<T>(s: seq<T>, w: nat, cmp: (T, T) -> int)
    requires w >= 1
    ensures multiset(MergePass(s, w, cmp)) == multiset(s)
    decreases |s|
  {
    if s != [] {
      hide Merge;
      var a, b := Min(w, |s|), Min(2 * w, |s|);
      MergePermutes(s[..a], s[a..b], cmp);
      MergePassPermutes(s[b..], w, cmp);
      ThreeParts(s, a, b);
    }
  }

  lemma {:induction false} MergePassLength<T>(s: seq<T>, w: nat, cmp: (T, T) -> int)
    requires w >= 1
    ensures |MergePass(s, w, cmp)| == |s|
    decreases |s|
  {
    if s != [] {
      var a, b := Min(w, |s|), Min(2 * w, |s|);
      MergePermutes(s[..a], s[a..b], cmp);
      MergePassLength(s[b..], w, cmp);
    }
  }

  lemma {:induction false} SortFromPermutes<T>(s: seq<T>, w: nat, cmp: (T, T) -> int)
    requires w >= 1
    ensures multiset(SortFrom(s, w, cmp)) == multiset(s)
    decreases |s| - w
  {
    MergePassPermutes(s, w, cmp);
    MergePassLength(s, w, cmp);
    if |s| > 2 * w {
      SortFromPermutes(MergePass(s, w, cmp), 2 * w, cmp);
    }
  }

  // ---------- order ----------

  lemma WithinPermuted<T>(s: seq<T>, t: seq<T>, all: set<T>)
    requires multiset(s) == multiset(t) && Within(s, all)
    ensures Within(t, all)
  {
    forall x | x in t ensures x in all {
      assert x in multiset(t);
    }
  }

  lemma ConsSorted<T>(x: T, s: seq<T>, cmp: (T, T) -> int)
    requires Sorted(s, cmp) && forall y :: y in s ==> cmp(x, y) <= 0
    ensures Sorted([x] + s, cmp)
  {
  }

  lemma {:induction false} MergeSorts<T>(p: seq<T>, q: seq<T>, cmp: (T, T) -> int, all: set<T>)
    requires Ordering(cmp, all) && Within(p, all) && Within(q, all) && Sorted(p, cmp) && Sorted(q, cmp)
    ensures Sorted(Merge(p, q, cmp), cmp)
    decreases |p| + |q|
  {
    if p != [] && q != [] {
      assert p[0] in all && q[0] in all;
      if cmp(p[0], q[0]) <= 0 {
        LeastOfBoth(p[0], q[0], p[1..], q, cmp, all);
        MergeSorts(p[1..], q, cmp, all);
        ConsSorted(p[0], Merge(p[1..], q, cmp), cmp);
      } else {
        LeastOfBoth(q[0], p[0], q[1..], p, cmp, all);
        MergeSorts(p, q[1..], cmp, all);
        ConsSorted(q[0], Merge(p, q[1..], cmp), cmp);
      }
    }
  }

  /** What comes first in one run, and not behind the first of the other, comes first in both. */
  lemma LeastOfBoth<T>(x: T, y: T, rest: seq<T>, other: seq<T>, cmp: (T, T) -> int, all: set<T>)
    requires Ordering(cmp, all) && x in all && y in all && Within(rest, all) && Within(other, all)
    requires cmp(x, y) <= 0 || cmp(y, x) > 0
    requires (forall z :: z in rest ==> cmp(x, z) <= 0) && (forall z :: z in other ==> cmp(y, z) <= 0)
    ensures forall z :: z in Merge(rest, other, cmp) ==> cmp(x, z) <= 0
    ensures forall z :: z in Merge(other, rest, cmp) ==> cmp(x, z) <= 0
  {
    forall z | z in rest || z in other ensures cmp(x, z) <= 0 {
      if z in other {
        assert cmp(x, y) <= 0 && cmp(y, z) <= 0;
      }
    }
  }

  /** Every run of length w, counted from the front, is sorted. */
  predicate RunsSorted<T>(s: seq<T>, w: nat, cmp: (T, T) -> int)
    requires w >= 1
  {
    if |s| <= w then Sorted(s, cmp) else Sorted(s[..w], cmp) && RunsSorted(s[w..], w, cmp)
  }

  lemma {:induction false} MergePassDoublesRuns<T>(s: seq<T>, w: nat, cmp: (T, T) -> int, all: set<T>)
    requires Ordering(cmp, all) && Within(s, all) && w >= 1 && RunsSorted(s, w, cmp)
    ensures RunsSorted(MergePass(s, w, cmp), 2 * w, cmp)
    decreases |s|
  {
    if s != [] {
      var a, b := Min(w, |s|), Min(2 * w, |s|);
      FirstPair(s, w, cmp, a, b);
      MergeSorts(s[..a], s[a..b], cmp, all);
      MergePermutes(s[..a], s[a..b], cmp);
      var m, rest := Merge(s[..a], s[a..b], cmp), MergePass(s[b..], w, cmp);
      if b == |s| {
        assert m + rest == m;
      } else {
        MergePassDoublesRuns(s[b..], w, cmp, all);
        MergePassLength(s[b..], w, cmp);
        assert (m + rest)[..2 * w] == m && (m + rest)[2 * w..] == rest;
      }
    }
  }

  lemma {:induction false} SortFromSorts<T>(s: seq<T>, w: nat, cmp: (T, T) -> int, all: set<T>)
    requires Ordering(cmp, all) && Within(s, all) && w >= 1 && RunsSorted(s, w, cmp)
    ensures Sorted(SortFrom(s, w, cmp), cmp)
    decreases |s| - w
  {
    MergePassDoublesRuns(s, w, cmp, all);
    MergePassPermutes(s, w, cmp);
    MergePassLength(s, w, cmp);
    if |s| > 2 * w {
      WithinPermuted(s, MergePass(s, w, cmp), all);
      SortFromSorts(MergePass(s, w, cmp), 2 * w, cmp, all);
    }
  }

  lemma {:induction false} UnitRunsSorted<T>(s: seq<T>, cmp: (T, T) -> int)
    ensures RunsSorted(s, 1, cmp)
    decreases |s|
  {
    if |s| > 1 {
      UnitRunsSorted(s[1..], cmp);
    }
  }

  // ---------- stability ----------

  lemma {:induction false} ClassOfSum<T>(a: seq<T>, b: seq<T>, g: T, cmp: (T, T) -> int)
    ensures Class(a + b, g, cmp) == Class(a, g, cmp) + Class(b, g, cmp)
    decreases |a|
  {
    hide Equivalent;
    if a == [] {
      assert a + b == b;
    } else {
      ClassOfSum(a[1..], b, g, cmp);
      assert (a + b)[1..] == a[1..] + b && (a + b)[0] == a[0];
      var first := if Equivalent(a[0], g, cmp) then [a[0]] else [];
      assert Class(a + b, g, cmp) == first + (Class(a[1..], g, cmp) + Class(b, g, cmp));
      assert Class(a, g, cmp) == first + Class(a[1..], g, cmp);
    }
  }

  lemma ClassOfThree<T>(s: seq<T>, a: nat, b: nat, g: T, cmp: (T, T) -> int)
    requires a <= b <= |s|
    ensures Class(s, g, cmp) == Class(s[..a], g, cmp) + Class(s[a..b], g, cmp) + Class(s[b..], g, cmp)
  {
    hide Class;
    var x, y, z := s[..a], s[a..b], s[b..];
    ClassOfSum(x, y, g, cmp);
    ClassOfSum(x + y, z, g, cmp);
    InThree(s, a, b);
  }

  lemma {:induction false} NoneOfClass<T>(s: seq<T>, g: T, cmp: (T, T) -> int)
    requires forall x :: x in s ==> !Equivalent(x, g, cmp)
    ensures Class(s, g, cmp) == []
    decreases |s|
  {
    if s != [] {
      NoneOfClass(s[1..], g, cmp);
    }
  }

  lemma OvertakenKeepClass<T>(p: seq<T>, y: T, g: T, cmp: (T, T) -> int, all: set<T>)
    requires Ordering(cmp, all) && Within(p, all) && y in all && g in all && Sorted(p, cmp) && p != [] && cmp(p[0], y) > 0
    ensures Equivalent(y, g, cmp) ==> Class(p, g, cmp) == []
  {
    if Equivalent(y, g, cmp) {
      forall x | x in p ensures !Equivalent(x, g, cmp) {
      }
      NoneOfClass(p, g, cmp);
    }
  }

  lemma {:induction false} MergeIsStable<T>(p: seq<T>, q: seq<T>, g: T, cmp: (T, T) -> int, all: set<T>)
    requires Ordering(cmp, all) && Within(p, all) && Within(q, all) && g in all && Sorted(p, cmp) && Sorted(q, cmp)
    ensures Class(Merge(p, q, cmp), g, cmp) == Class(p, g, cmp) + Class(q, g, cmp)
    decreases |p| + |q|
  {
    if p != [] && q != [] {
      if cmp(p[0], q[0]) <= 0 {
        MergeIsStable(p[1..], q, g, cmp, all);
        var m := Merge(p[1..], q, cmp);
        assert Class(m, g, cmp) == Class(p[1..], g, cmp) + Class(q, g, cmp);
      } else {
        MergeIsStable(p, q[1..], g, cmp, all);
        var m := Merge(p, q[1..], cmp);
        assert Class(m, g, cmp) == Class(p, g, cmp) + Class(q[1..], g, cmp);
        OvertakenKeepClass(p, q[0], g, cmp, all);
      }
    }
  }

  /** The first pair of runs merged by a pass, and what is left. */
  lemma FirstPair<T>(s: seq<T>, w: nat, cmp: (T, T) -> int, a: nat, b: nat)
    requires w >= 1 && s != [] && RunsSorted(s, w, cmp)
    requires a == Min(w, |s|) && b == Min(2 * w, |s|)
    ensures Sorted(s[..a], cmp) && Sorted(s[a..b], cmp) && RunsSorted(s[b..], w, cmp)
  {
    if |s| <= w {
      assert s[..a] == s;
    } else if |s| <= 2 * w {
      assert s[a..b] == s[w..];
      assert s[b..] == [];
    } else {
      assert s[w..][..w] == s[a..b];
      assert s[w..][w..] == s[b..];
    }
  }

  lemma {:induction false} MergePassIsStable<T>(s: seq<T>, w: nat, g: T, cmp: (T, T) -> int, all: set<T>)
    requires Ordering(cmp, all) && Within(s, all) && g in all && w >= 1 && RunsSorted(s, w, cmp)
    ensures Class(MergePass(s, w, cmp), g, cmp) == Class(s, g, cmp)
    decreases |s|
  {
    if s != [] {
      var a, b := Min(w, |s|), Min(2 * w, |s|);
      FirstPair(s, w, cmp, a, b);
      MergeIsStable(s[..a], s[a..b], g, cmp, all);
      MergePassIsStable(s[b..], w, g, cmp, all);
      ClassOfThree(s, a, b, g, cmp);
      ClassOfSum(Merge(s[..a], s[a..b], cmp), MergePass(s[b..], w, cmp), g, cmp);
    }
  }

  lemma {:induction false} SortFromIsStable<T>(s: seq<T>, w: nat, g: T, cmp: (T, T) -> int, all: set<T>)
    requires Ordering(cmp, all) && Within(s, all) && g in all && w >= 1 && RunsSorted(s, w, cmp)
    ensures Class(SortFrom(s, w, cmp), g, cmp) == Class(s, g, cmp)
    decreases |s| - w
  {
    MergePassIsStable(s, w, g, cmp, all);
    MergePassDoublesRuns(s, w, cmp, all);
    MergePassPermutes(s, w, cmp);
    MergePassLength(s, w, cmp);
    if |s| > 2 * w {
      WithinPermuted(s, MergePass(s, w, cmp), all);
      SortFromIsStable(MergePass(s, w, cmp), 2 * w, g, cmp, all);
    }
  }

  /** The sort yields a sorted permutation in which elements that compare equal keep their order. */
  lemma SortIsStablySorted<T>(s: seq<T>, g: T, cmp: (T, T) -> int, all: set<T>)
    requires Ordering(cmp, all) && Within(s, all) && g in all
    ensures Sorted(Sort(s, cmp), cmp)
    ensures multiset(Sort(s, cmp)) == multiset(s)
    ensures Class(Sort(s, cmp), g, cmp) == Class(s, g, cmp)
  {
    UnitRunsSorted(s, cmp);
    SortFromSorts(s, 1, cmp, all);
    SortFromPermutes(s, 1, cmp);
    SortFromIsStable(s, 1, g, cmp, all);
  }
}
