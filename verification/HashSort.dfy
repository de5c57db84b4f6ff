/**
 The handles of src/include/proxy/uthash.h and its in-place list mergesort
 HASH_SRT, proved against the sort of module MergeSort.
 */
module HashSort {
  import opened Basics
  import opened MergeSort

  /** The handle inside an item; the bytes of the key do not change while the item is in a table. */
  class Handle {
    const key: seq<bv8>
    var hashv: nat
    var prev: Handle?      // application order
    var next: Handle?
    var hh_prev: Handle?   // bucket chain
    var hh_next: Handle?

    constructor (key: seq<bv8>)
      ensures this.key == key
    {
      this.key := key;
    }
  }

  predicate NoDup<T(==)>(s: seq<T>) {
    forall i, j :: 0 <= i < j < |s| ==> s[i] != s[j]
  }

  function First(s: seq<Handle>): Handle? {
    if s == [] then null else s[0]
  }

  function Last(s: seq<Handle>): Handle? {
    if s == [] then null else s[|s| - 1]
  }

  ghost predicate NextLinked(s: seq<Handle>)
    reads s`next
  {
    forall i :: 0 <= i < |s| - 1 ==> s[i].next == s[i + 1]
  }

  /** A list linked to its end. */
  ghost predicate Ends(s: seq<Handle>)
    reads s`next
  {
    NextLinked(s) && (s != [] ==> s[|s| - 1].next == null)
  }

  ghost predicate PrevLinked(s: seq<Handle>)
    reads s`prev
  {
    (s != [] ==> s[0].prev == null) && forall i :: 1 <= i < |s| ==> s[i].prev == s[i - 1]
  }

  /** The doubly linked list of a table's items. */
  ghost predicate Order(s: seq<Handle>)
    reads s`next, s`prev
  {
    Ends(s) && PrevLinked(s) && NoDup(s)
  }

  lemma FirstIsNull(s: seq<Handle>)
    ensures First(s) == null <==> s == []
  {
  }

  /** The _hs_psize loop: counts a run of at most insize items and finds what follows it. */
  method TakeRun(p: Handle, insize: nat, ghost l: seq<Handle>) returns (psize: nat, q: Handle?)
    requires 1 <= insize
    requires l != [] && p == l[0] && Ends(l)
    ensures psize == Min(insize, |l|)
    ensures q == First(l[psize..])
  {
    psize, q := 0, p;
    var i := 0;
    while i < insize
      invariant i <= insize && psize == i <= |l|
      invariant q == First(l[i..])
      invariant i < insize ==> q != null
    {
      psize := psize + 1;
      assert q == l[i];
      q := q.next;
      if q == null {
        FirstIsNull(l[psize..]);
        break;
      }
      i := i + 1;
    }
  }

  ghost predicate Apart(a: seq<Handle>, b: seq<Handle>) {
    forall i, j :: 0 <= i < |a| && 0 <= j < |b| ==> a[i] != b[j]
  }

  ghost predicate AllIn(s: seq<Handle>, nodes: set<Handle>) {
    forall i :: 0 <= i < |s| ==> s[i] in nodes
  }

  ghost predicate NotIn(e: Handle, s: seq<Handle>) {
    forall i :: 0 <= i < |s| ==> s[i] != e
  }

  /** What the merging loop knows: out is merged, p is left of the first run, r is the second run and all after it. */
  ghost predicate Merging(list: Handle?, tail: Handle?, out: seq<Handle>, p: seq<Handle>, r: seq<Handle>)
    reads out`next, out`prev, p`next, r`next
  {
    && list == First(out) && tail == Last(out)
    && NextLinked(out) && PrevLinked(out) && NextLinked(p) && Ends(r)
    && NoDup(out) && NoDup(p) && NoDup(r)
    && Apart(out, p) && Apart(out, r) && Apart(p, r)
  }

  /** The same once e has been taken off the front of a run. */
  ghost predicate Chosen(list: Handle?, tail: Handle?, e: Handle, out: seq<Handle>, p: seq<Handle>, r: seq<Handle>)
    reads out`next, out`prev, p`next, r`next
  {
    Merging(list, tail, out, p, r) && NotIn(e, out) && NotIn(e, p) && NotIn(e, r)
  }

  /** Puts e behind the merged items. */
  method Append(list: Handle?, tail: Handle?, e: Handle, ghost out: seq<Handle>, ghost p: seq<Handle>, ghost r: seq<Handle>)
      returns (list': Handle?, tail': Handle?)
    requires Chosen(list, tail, e, out, p, r)
    modifies out`next, e`prev
    ensures Merging(list', tail', out + [e], p, r)
  {
    list' := list;
    if tail != null {
      tail.next := e;
    } else {
      list' := e;
    }
    e.prev := tail;
    tail' := e;
  }

  lemma ChooseFirst(list: Handle?, tail: Handle?, out: seq<Handle>, p: seq<Handle>, r: seq<Handle>)
    requires Merging(list, tail, out, p, r) && p != []
    ensures Chosen(list, tail, p[0], out, p[1..], r)
    ensures |p| > 1 ==> p[0].next == p[1..][0]
  {
  }

  lemma ChooseSecond(list: Handle?, tail: Handle?, out: seq<Handle>, p: seq<Handle>, r: seq<Handle>)
    requires Merging(list, tail, out, p, r) && r != []
    ensures Chosen(list, tail, r[0], out, p, r[1..])
    ensures r[0].next == First(r[1..])
  {
  }

  lemma TakeFirst(out: seq<Handle>, p: seq<Handle>, r: seq<Handle>, m: nat, cmp: (Handle, Handle) -> int)
    requires p != [] && m <= |r| && (m == 0 || cmp(p[0], r[0]) <= 0)
    ensures out + Merge(p, r[..m], cmp) == out + [p[0]] + Merge(p[1..], r[..m], cmp)
  {
    assert Merge(p, r[..m], cmp) == [p[0]] + Merge(p[1..], r[..m], cmp);
  }

  lemma MergeNothing(out: seq<Handle>, p: seq<Handle>, r: seq<Handle>, cmp: (Handle, Handle) -> int)
    requires p == r == []
    ensures out + Merge(p, r, cmp) == out
  {
  }

  lemma TakeSecond(out: seq<Handle>, p: seq<Handle>, r: seq<Handle>, m: nat, cmp: (Handle, Handle) -> int)
    requires 0 < m <= |r| && (p == [] || cmp(p[0], r[0]) > 0)
    ensures out + Merge(p, r[..m], cmp) == out + [r[0]] + Merge(p, r[1..][..m - 1], cmp)
    ensures r[1..][m - 1..] == r[m..]
  {
    hide Merge;
    TakenFirst(r, m);
    MergeFromSecond(p, r[..m], cmp);
  }

  lemma TakenFirst(r: seq<Handle>, m: nat)
    requires 0 < m <= |r|
    ensures r[..m] != [] && r[..m][0] == r[0] && r[..m][1..] == r[1..][..m - 1] && r[1..][m - 1..] == r[m..]
  {
  }

  lemma MergeFromSecond(p: seq<Handle>, q: seq<Handle>, cmp: (Handle, Handle) -> int)
    requires q != [] && (p == [] || cmp(p[0], q[0]) > 0)
    ensures Merge(p, q, cmp) == [q[0]] + Merge(p, q[1..], cmp)
  {
  }

  /** Where the merging loop is: what is left of both runs, in pointers and counts and as sequences. */
  ghost predicate Cursors(hp: Handle?, psize: nat, q: Handle?, qsize: nat, p: seq<Handle>, r: seq<Handle>, m: nat) {
    psize == |p| && m == Min(qsize, |r|) && q == First(r) && (psize > 0 ==> hp == p[0])
  }

  /** The choice of the next item: the front of the first run unless that is empty or the second run's is smaller. */
  method TakeNext(hp: Handle?, psize: nat, q: Handle?, qsize: nat, cmp: (Handle, Handle) -> int,
                  ghost list: Handle?, ghost tail: Handle?, ghost out: seq<Handle>, ghost p: seq<Handle>, ghost r: seq<Handle>, ghost m: nat)
      returns (e: Handle, hp': Handle?, psize': nat, q': Handle?, qsize': nat, ghost p': seq<Handle>, ghost r': seq<Handle>, ghost m': nat)
    requires Merging(list, tail, out, p, r) && Cursors(hp, psize, q, qsize, p, r, m)
    requires psize > 0 || (qsize > 0 && q != null)
    ensures Chosen(list, tail, e, out, p', r') && Cursors(hp', psize', q', qsize', p', r', m')
    ensures out + Merge(p, r[..m], cmp) == out + [e] + Merge(p', r'[..m'], cmp)
    ensures r'[m'..] == r[m..]
    ensures (p != [] && e == p[0] && p' == p[1..] && r' == r) || (r != [] && e == r[0] && p' == p && r' == r[1..])
  {
    hide Merge, Merging, Chosen;
    hp', psize', q', qsize' := hp, psize, q, qsize;
    p', r', m' := p, r, m;
    if psize > 0 && (m == 0 || cmp(p[0], r[0]) <= 0) {
      TakeFirst(out, p, r, m, cmp);
      ChooseFirst(list, tail, out, p, r);
    } else {
      TakeSecond(out, p, r, m, cmp);
      ChooseSecond(list, tail, out, p, r);
    }
    if psize == 0 {
      e := q;
      q' := q.next;
      qsize' := qsize - 1;
      m', r' := m - 1, r[1..];
    } else if qsize == 0 || q == null {
      e := hp;
      hp' := hp.next;
      psize' := psize - 1;
      p' := p[1..];
    } else if cmp(hp, q) <= 0 {
      e := hp;
      hp' := hp.next;
      psize' := psize - 1;
      p' := p[1..];
    } else {
      e := q;
      q' := q.next;
      qsize' := qsize - 1;
      m', r' := m - 1, r[1..];
    }
  }

  /** The merging loop of one pair of runs. */
  method MergeRuns(list: Handle?, tail: Handle?, p0: Handle, psize0: nat, q0: Handle?, insize: nat, cmp: (Handle, Handle) -> int,
                   ghost out0: seq<Handle>, ghost run: seq<Handle>, ghost after: seq<Handle>, ghost nodes: set<Handle>)
      returns (list': Handle?, tail': Handle?, q: Handle?, ghost out: seq<Handle>)
    requires Merging(list, tail, out0, run, after)
    requires run != [] && psize0 == |run| && p0 == run[0] && q0 == First(after)
    requires AllIn(out0, nodes) && AllIn(run, nodes) && AllIn(after, nodes)
    modifies nodes`next, nodes`prev
    ensures var m := Min(insize, |after|);
      && out == out0 + Merge(run, after[..m], cmp)
      && Merging(list', tail', out, [], after[m..])
      && AllIn(out, nodes)
      && q == First(after[m..])
  {
    hide Merge, Merging, Chosen;
    ghost var m := Min(insize, |after|);
    ghost var goal, rest := out0 + Merge(run, after[..m], cmp), after[m..];
    ghost var p, r := run, after;
    var hp: Handle?, psize, qsize := p0, psize0, insize;
    list', tail', q := list, tail, q0;
    out := out0;
    while psize > 0 || (qsize > 0 && q != null)
      invariant Merging(list', tail', out, p, r) && Cursors(hp, psize, q, qsize, p, r, m)
      invariant out + Merge(p, r[..m], cmp) == goal && r[m..] == rest
      invariant AllIn(out, nodes) && AllIn(p, nodes) && AllIn(r, nodes)
      decreases |p| + |r|
    {
      var e;
      e, hp, psize, q, qsize, p, r, m := TakeNext(hp, psize, q, qsize, cmp, list', tail', out, p, r, m);
      list', tail' := Append(list', tail', e, out, p, r);
      out := out + [e];
    }
    MergeNothing(out, p, r[..m], cmp);
  }

  lemma SplitRun(list: Handle?, tail: Handle?, out: seq<Handle>, r: seq<Handle>, a: nat)
    requires Merging(list, tail, out, [], r) && 0 < a <= |r|
    ensures Merging(list, tail, out, r[..a], r[a..])
  {
  }

  lemma NextPair(out: seq<Handle>, s: seq<Handle>, w: nat, a: nat, m: nat, cmp: (Handle, Handle) -> int)
    requires w >= 1 && s != [] && a == Min(w, |s|) && m == Min(w, |s| - a)
    ensures |s[a..][m..]| == |s| - Min(2 * w, |s|)
    ensures out + MergePass(s, w, cmp) == out + Merge(s[..a], s[a..][..m], cmp) + MergePass(s[a..][m..], w, cmp)
  {
    var b := Min(2 * w, |s|);
    var run, after, rest := s[..a], s[a..b], s[b..];
    assert s[a..][..m] == after && s[a..][m..] == rest;
  }

  method Close(list: Handle?, tail: Handle?, ghost out: seq<Handle>)
    requires Merging(list, tail, out, [], [])
    modifies out`next
    ensures Order(out) && list == First(out) && tail == Last(out)
  {
    if tail != null {
      tail.next := null;
    }
  }

  /** Splits off the next two runs and merges them. */
  method MergePair(list: Handle?, tail: Handle?, p: Handle, insize: nat, cmp: (Handle, Handle) -> int,
                   ghost out: seq<Handle>, ghost r: seq<Handle>, ghost nodes: set<Handle>)
      returns (list': Handle?, tail': Handle?, p': Handle?, ghost out': seq<Handle>, ghost r': seq<Handle>)
    requires insize >= 1 && r != [] && p == r[0]
    requires Merging(list, tail, out, [], r) && AllIn(out, nodes) && AllIn(r, nodes)
    modifies nodes`next, nodes`prev
    ensures |r'| == |r| - Min(2 * insize, |r|) && p' == First(r')
    ensures Merging(list', tail', out', [], r') && AllIn(out', nodes) && AllIn(r', nodes)
    ensures out' + MergePass(r', insize, cmp) == out + MergePass(r, insize, cmp)
  {
    hide Merge, MergePass;
    var psize, q := TakeRun(p, insize, r);
    ghost var m := Min(insize, |r| - psize);
    SplitRun(list, tail, out, r, psize);
    NextPair(out, r, insize, psize, m, cmp);
    list', tail', p', out' := MergeRuns(list, tail, p, psize, q, insize, cmp, out, r[..psize], r[psize..], nodes);
    r' := r[psize..][m..];
  }

  lemma MergingStarts(l: seq<Handle>)
    requires Order(l)
    ensures Merging(null, null, [], [], l)
  {
  }

  lemma PassEnds(out: seq<Handle>, r: seq<Handle>, w: nat, cmp: (Handle, Handle) -> int)
    requires w >= 1
    ensures r == [] ==> out + MergePass(r, w, cmp) == out
  {
  }

  /** One pass over the list, merging runs of length insize in pairs. */
  method Pass(p0: Handle, insize: nat, cmp: (Handle, Handle) -> int, ghost l: seq<Handle>, ghost nodes: set<Handle>)
      returns (list: Handle?, tail: Handle?, nmerges: nat)
    requires insize >= 1 && l != [] && p0 == l[0] && Order(l) && AllIn(l, nodes)
    modifies nodes`next, nodes`prev
    ensures var out := MergePass(l, insize, cmp);
      list == First(out) && tail == Last(out) && Order(out) && AllIn(out, nodes)
    ensures nmerges <= 1 <==> |l| <= 2 * insize
  {
    hide MergePass, Merging;
    ghost var out, r := [], l;
    MergingStarts(l);
    var p: Handle? := p0;
    list, tail, nmerges := null, null, 0;
    while p != null
      invariant p == First(r) && Merging(list, tail, out, [], r)
      invariant AllIn(out, nodes) && AllIn(r, nodes)
      invariant out + MergePass(r, insize, cmp) == MergePass(l, insize, cmp)
      invariant nmerges == 0 ==> r == l
      invariant nmerges == 1 ==> |r| == |l| - Min(2 * insize, |l|)
      invariant nmerges >= 2 ==> |l| > 2 * insize
      decreases |r|
    {
      nmerges := nmerges + 1;
      list, tail, p, out, r := MergePair(list, tail, p, insize, cmp, out, r, nodes);
    }
    PassEnds(out, r, insize, cmp);
    Close(list, tail, out);
  }

  /** Unsigned 32-bit arithmetic. */
  function U32(x: nat): (r: nat)
    ensures r < TWO_32 && (x < TWO_32 ==> r == x)
  {
    x % TWO_32
  }

  lemma SortStep(s: seq<Handle>, w: nat, cmp: (Handle, Handle) -> int)
    requires w >= 1
    ensures var t := MergePass(s, w, cmp);
      |t| == |s| && SortFrom(s, w, cmp) == if |s| <= 2 * w then t else SortFrom(t, 2 * w, cmp)
  {
    MergePassLength(s, w, cmp);
  }

  /**
   HASH_SRT on the list of a table: the pass loop ends, the run length never
   leaves 32 bits while it is used, and the list becomes the sorted list.
   */
  method SortList(first: Handle, cmp: (Handle, Handle) -> int, ghost l: seq<Handle>)
      returns (head: Handle, tail: Handle)
    requires l != [] && first == l[0] && Order(l) && |l| < TWO_32
    modifies l`next, l`prev
    ensures var out := Sort(l, cmp);
      out != [] && head == out[0] && tail == out[|out| - 1] && Order(out)
  {
    hide Order, MergePass;
    ghost var nodes := set x | x in l;
    ghost var goal := Sort(l, cmp);
    ghost var cur := l;
    var insize: nat, looping := 1, true;
    var list: Handle?, last: Handle? := first, null;
    while looping
      invariant cur != [] && list == First(cur) && Order(cur) && AllIn(cur, nodes)
      invariant |cur| == |l|
      invariant looping ==> insize >= 1 && SortFrom(cur, insize, cmp) == goal
      invariant !looping ==> cur == goal && last == Last(cur)
      decreases looping, |l| - insize
    {
      ghost var merged := MergePass(cur, insize, cmp);
      SortStep(cur, insize, cmp);
      var nmerges;
      list, last, nmerges := Pass(list, insize, cmp, cur, nodes);
      cur := merged;
      if nmerges <= 1 {
        looping := false;
      }
      insize := U32(insize * 2);
    }
    head, tail := list, last;
  }
}
