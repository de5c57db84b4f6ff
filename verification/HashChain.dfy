/**
 Bucket chains of src/include/proxy/uthash.h: linking an item in, unlinking it,
 searching by key, and spreading one old chain over twice as many buckets.
 */
module HashChain {
  import opened HashSort
  import opened BucketIndex
  import opened Bitmap

  datatype Bucket = Bucket(hh_head: Handle?, count: nat, expand_mult: nat)

  /** c is the chain hanging off head. */
  ghost predicate Chain(head: Handle?, c: seq<Handle>)
    reads c`hh_prev, c`hh_next
  {
    && head == First(c) && NoDup(c)
    && (c != [] ==> c[0].hh_prev == null && c[|c| - 1].hh_next == null)
    && (forall i :: 0 <= i < |c| - 1 ==> c[i].hh_next == c[i + 1])
    && (forall i :: 1 <= i < |c| ==> c[i].hh_prev == c[i - 1])
  }

  /** One bucket: its chain, its count, and only items that hash to it. */
  ghost predicate BucketOk(bk: Bucket, c: seq<Handle>, b: nat, slot: nat -> nat, nodes: set<Handle>)
    reads nodes`hh_prev, nodes`hh_next, nodes`hashv
  {
    && AllIn(c, nodes)
    && Chain(bk.hh_head, c) && bk.count == |c|
    && forall i :: 0 <= i < |c| ==> slot(c[i].hashv) == b
  }

  /** slot is HASH_TO_BKT for n buckets. */
  ghost predicate Slots(slot: nat -> nat, n: nat) {
    n > 0 && InRange(slot, n) && forall x: nat {:trigger ToBkt(x, n)} :: ToBkt(x, n) == slot(x)
  }

  ghost predicate InRange(slot: nat -> nat, n: nat) {
    forall x: nat :: slot(x) < n
  }

  ghost predicate BucketsOk(bs: seq<Bucket>, cs: seq<seq<Handle>>, slot: nat -> nat, nodes: set<Handle>)
    reads nodes`hh_prev, nodes`hh_next, nodes`hashv
  {
    |bs| == |cs| && InRange(slot, |cs|) && forall b :: 0 <= b < |cs| ==> BucketOk(bs[b], cs[b], b, slot, nodes)
  }

  /** The linking half of HASH_ADD_TO_BKT and of the expansion loop. */
  method LinkFirst(head: Handle?, h: Handle, ghost c: seq<Handle>)
    requires Chain(head, c) && NotIn(h, c)
    modifies h`hh_prev, h`hh_next, c`hh_prev
    ensures Chain(h, [h] + c)
  {
    h.hh_next := head;
    h.hh_prev := null;
    if head != null {
      head.hh_prev := h;
    }
  }

  /** HASH_DEL_IN_BKT */
  method Unlink(bk: Bucket, h: Handle, ghost c: seq<Handle>, ghost i: nat) returns (r: Bucket)
    requires Chain(bk.hh_head, c) && bk.count == |c| && i < |c| && c[i] == h
    modifies c`hh_prev, c`hh_next
    ensures Chain(r.hh_head, Without(c, i))
    ensures r.count == bk.count - 1 && r.expand_mult == bk.expand_mult
  {
    ghost var d := Without(c, i);
    assert forall j :: 0 <= j < |d| ==> d[j] == c[if j < i then j else j + 1];
    assert h.hh_prev == if i == 0 then null else c[i - 1];
    assert h.hh_next == if i == |c| - 1 then null else c[i + 1];
    r := bk.(count := bk.count - 1);
    if r.hh_head == h {
      r := r.(hh_head := h.hh_next);
    }
    if h.hh_prev != null {
      h.hh_prev.hh_next := h.hh_next;
    }
    if h.hh_next != null {
      h.hh_next.hh_prev := h.hh_prev;
    }
  }

  /** HASH_FIND_IN_BKT: the first item of the chain with this key. */
  method FindInBucket(bk: Bucket, key: seq<bv8>, ghost c: seq<Handle>) returns (out: Handle?)
    requires Chain(bk.hh_head, c)
    ensures out != null ==> out in c && out.key == key
    ensures out == null ==> forall h :: h in c ==> h.key != key
  {
    ghost var i := 0;
    out := bk.hh_head;
    while out != null
      invariant i <= |c| && out == First(c[i..])
      invariant forall j :: 0 <= j < i ==> c[j].key != key
      decreases |c| - i
    {
      assert out == c[i];
      if out.key == key { return; }
      out := out.hh_next;
      i := i + 1;
    }
    assert i == |c| by { FirstIsNull(c[i..]); }
  }

  // ---------- expansion ----------

  function Over(count: nat, ideal: nat): nat {
    if count > ideal then count - ideal else 0
  }

  /** The number of items beyond the ideal length of their chain. */
  function Overflow(cs: seq<seq<Handle>>, ideal: nat): nat {
    if cs == [] then 0
    else Overflow(cs[..|cs| - 1], ideal) + Over(|cs[|cs| - 1]|, ideal)
  }

  lemma {:induction false} OverflowOfPush(cs: seq<seq<Handle>>, b: nat, h: Handle, ideal: nat)
    requires b < |cs|
    ensures Overflow(cs[b := [h] + cs[b]], ideal) == Overflow(cs, ideal) + if |cs[b]| + 1 > ideal then 1 else 0
  {
    var n := |cs| - 1;
    var ds := cs[b := [h] + cs[b]];
    if b < n {
      OverflowOfPush(cs[..n], b, h, ideal);
      assert ds[..n] == cs[..n][b := [h] + cs[..n][b]];
    } else {
      assert ds[..n] == cs[..n];
    }
  }

  lemma {:induction false} OverflowOfEmpty(cs: seq<seq<Handle>>, ideal: nat)
    requires forall b :: 0 <= b < |cs| ==> cs[b] == []
    ensures Overflow(cs, ideal) == 0
  {
    if cs != [] {
      OverflowOfEmpty(cs[..|cs| - 1], ideal);
    }
  }

  /** A bucket grown past the ideal length delays its next expansion by how far it is past it. */
  predicate MultOk(bk: Bucket, ideal: nat)
    requires ideal >= 1
  {
    bk.expand_mult == if bk.count > ideal then bk.count / ideal else 0
  }

  predicate MultsOk(bs: seq<Bucket>, ideal: nat)
    requires ideal >= 1
  {
    forall b :: 0 <= b < |bs| ==> MultOk(bs[b], ideal)
  }

  /** The items found in the buckets are exactly those of all. */
  ghost predicate Holds(cs: seq<seq<Handle>>, slot: nat -> nat, nodes: set<Handle>, all: set<Handle>)
    reads nodes`hashv
  {
    InRange(slot, |cs|) && all <= nodes && forall h :: h in nodes ==> (h in all <==> h in cs[slot(h.hashv)])
  }

  /** What holds of the new buckets while items are moved into them. */
  ghost predicate Filled(bs: seq<Bucket>, cs: seq<seq<Handle>>, slot: nat -> nat, nodes: set<Handle>, ideal: nat, nonideal: nat)
    reads nodes`hh_prev, nodes`hh_next, nodes`hashv
  {
    ideal >= 1 && BucketsOk(bs, cs, slot, nodes) && MultsOk(bs, ideal) && nonideal == Overflow(cs, ideal)
  }

  ghost predicate Filling(bs: seq<Bucket>, cs: seq<seq<Handle>>, slot: nat -> nat, nodes: set<Handle>, moved: set<Handle>, ideal: nat, nonideal: nat)
    reads nodes`hh_prev, nodes`hh_next, nodes`hashv
  {
    Filled(bs, cs, slot, nodes, ideal, nonideal) && Holds(cs, slot, nodes, moved)
  }

  /** Chains of different buckets share no item. */
  lemma ChainsApart(bs: seq<Bucket>, cs: seq<seq<Handle>>, slot: nat -> nat, nodes: set<Handle>, a: nat, b: nat)
    requires BucketsOk(bs, cs, slot, nodes) && a < |cs| && b < |cs| && a != b
    ensures Apart(cs[a], cs[b])
  {
    assert BucketOk(bs[a], cs[a], a, slot, nodes) && BucketOk(bs[b], cs[b], b, slot, nodes);
  }

  /** Only bucket b needs looking at after it alone was replaced. */
  lemma BucketReplaced(bs: seq<Bucket>, cs: seq<seq<Handle>>, b: nat, bk: Bucket, c: seq<Handle>, slot: nat -> nat, nodes: set<Handle>)
    requires |bs| == |cs| && b < |bs| && InRange(slot, |cs|)
    requires forall a :: 0 <= a < |cs| && a != b ==> BucketOk(bs[a], cs[a], a, slot, nodes)
    requires BucketOk(bk, c, b, slot, nodes)
    ensures BucketsOk(bs[b := bk], cs[b := c], slot, nodes)
  {
  }

  /** Links an item into bucket b; bk is that bucket with its count already raised. */
  method LinkBucket(bk: Bucket, h: Handle, ghost bs: seq<Bucket>, ghost cs: seq<seq<Handle>>, ghost b: nat, ghost slot: nat -> nat, ghost nodes: set<Handle>)
      returns (bk': Bucket)
    requires BucketsOk(bs, cs, slot, nodes) && h in nodes && b == slot(h.hashv)
    requires forall a :: 0 <= a < |cs| ==> NotIn(h, cs[a])
    requires bk.hh_head == bs[b].hh_head && bk.count == bs[b].count + 1
    modifies h`hh_prev, h`hh_next, cs[b]`hh_prev
    ensures bk' == bk.(hh_head := h) && BucketOk(bk', [h] + cs[b], b, slot, nodes)
    ensures forall a :: 0 <= a < |cs| && a != b ==> BucketOk(bs[a], cs[a], a, slot, nodes)
  {
    assert BucketOk(bs[b], cs[b], b, slot, nodes);
    forall a | 0 <= a < |cs| && a != b ensures Apart(cs[a], cs[b]) {
      ChainsApart(bs, cs, slot, nodes, a, b);
    }
    LinkFirst(bk.hh_head, h, cs[b]);
    bk' := bk.(hh_head := h);
  }

  lemma NotHeld(bs: seq<Bucket>, cs: seq<seq<Handle>>, slot: nat -> nat, nodes: set<Handle>, all: set<Handle>, h: Handle)
    requires BucketsOk(bs, cs, slot, nodes) && Holds(cs, slot, nodes, all) && h in nodes && h !in all
    ensures forall a :: 0 <= a < |cs| ==> NotIn(h, cs[a])
  {
    forall a, i | 0 <= a < |cs| && 0 <= i < |cs[a]| ensures cs[a][i] != h {
      assert BucketOk(bs[a], cs[a], a, slot, nodes);
      assert cs[a][i] in cs[a];
    }
  }

  lemma BucketHeld(bs: seq<Bucket>, cs: seq<seq<Handle>>, slot: nat -> nat, nodes: set<Handle>, all: set<Handle>, b: nat)
    requires BucketsOk(bs, cs, slot, nodes) && Holds(cs, slot, nodes, all) && b < |cs|
    ensures AllIn(cs[b], all)
  {
    assert BucketOk(bs[b], cs[b], b, slot, nodes);
    assert forall i :: 0 <= i < |cs[b]| ==> cs[b][i] in cs[b];
  }

  lemma NowHeld(cs: seq<seq<Handle>>, slot: nat -> nat, nodes: set<Handle>, all: set<Handle>, h: Handle)
    requires Holds(cs, slot, nodes, all) && h in nodes
    ensures var b := slot(h.hashv); Holds(cs[b := [h] + cs[b]], slot, nodes, all + {h})
  {
  }

  /** One turn of the expansion's inner loop. */
  method MoveItem(h: Handle, nb: array<Bucket>, ghost slot: nat -> nat, ideal: nat, nonideal: nat, ghost nc: seq<seq<Handle>>, ghost nodes: set<Handle>)
      returns (nonideal': nat)
    requires Slots(slot, nb.Length) && Filled(nb[..], nc, slot, nodes, ideal, nonideal)
    requires h in nodes && forall a :: 0 <= a < |nc| ==> NotIn(h, nc[a])
    modifies nb, h`hh_prev, h`hh_next, nc[slot(h.hashv)]`hh_prev
    ensures var b := slot(h.hashv); Filled(nb[..], nc[b := [h] + nc[b]], slot, nodes, ideal, nonideal')
  {
    hide Overflow;
    var b := ToBkt(h.hashv, nb.Length);
    ghost var c := nc[b];
    assert nb[..][b] == nb[b];
    var bk := nb[b];
    bk := bk.(count := bk.count + 1);
    nonideal' := nonideal;
    if bk.count > ideal {
      nonideal' := nonideal' + 1;
      bk := bk.(expand_mult := bk.count / ideal);
    }
    OverflowOfPush(nc, b, h, ideal);
    bk := LinkBucket(bk, h, nb[..], nc, b, slot, nodes);
    BucketReplaced(nb[..], nc, b, bk, [h] + c, slot, nodes);
    ghost var was := nb[..];
    nb[b] := bk;
    assert nb[..] == was[b := bk];
    assert MultsOk(was, ideal) && MultOk(bk, ideal);
  }

  /** The same, with what it means for the items held. */
  method MoveHeld(h: Handle, nb: array<Bucket>, ghost slot: nat -> nat, ideal: nat, nonideal: nat,
                  ghost nc: seq<seq<Handle>>, ghost nodes: set<Handle>, ghost moved: set<Handle>, ghost touched: set<Handle>)
      returns (nonideal': nat, ghost nc': seq<seq<Handle>>)
    requires Slots(slot, nb.Length) && Filling(nb[..], nc, slot, nodes, moved, ideal, nonideal) && h in nodes && h !in moved
    requires touched == moved + {h}
    modifies nb, touched`hh_prev, touched`hh_next
    ensures Filling(nb[..], nc', slot, nodes, touched, ideal, nonideal')
  {
    ghost var b := slot(h.hashv);
    NotHeld(nb[..], nc, slot, nodes, moved, h);
    BucketHeld(nb[..], nc, slot, nodes, moved, b);
    nc' := nc[b := [h] + nc[b]];
    nonideal' := MoveItem(h, nb, slot, ideal, nonideal, nc, nodes);
    NowHeld(nc, slot, nodes, moved, h);
  }

  function Items(c: seq<Handle>): set<Handle> {
    set h | h in c
  }

  /** What the expansion still needs of a chain it is taking apart: the way to its next items. */
  ghost predicate Remaining(first: Handle?, c: seq<Handle>, nodes: set<Handle>, moved: set<Handle>)
    reads c`hh_next
  {
    && first == First(c) && NoDup(c)
    && (forall i :: 0 <= i < |c| ==> c[i] in nodes && c[i] !in moved)
    && (forall i :: 0 <= i < |c| - 1 ==> c[i].hh_next == c[i + 1])
    && (c != [] ==> c[|c| - 1].hh_next == null)
  }

  lemma NextRemains(c: seq<Handle>, nodes: set<Handle>, moved: set<Handle>)
    requires c != [] && Remaining(c[0], c, nodes, moved)
    ensures Remaining(c[0].hh_next, c[1..], nodes, moved + {c[0]})
    ensures moved + {c[0]} + Items(c[1..]) == moved + Items(c)
  {
    assert c == [c[0]] + c[1..];
  }

  /** The inner loop of the expansion: moves one old chain. */
  method SpreadChain(first: Handle?, nb: array<Bucket>, ghost slot: nat -> nat, ideal: nat, nonideal: nat,
                     ghost c: seq<Handle>, ghost nc: seq<seq<Handle>>, ghost nodes: set<Handle>, ghost moved: set<Handle>, ghost pool: set<Handle>)
      returns (nonideal': nat, ghost nc': seq<seq<Handle>>)
    requires Slots(slot, nb.Length) && Filling(nb[..], nc, slot, nodes, moved, ideal, nonideal)
    requires Remaining(first, c, nodes, moved) && pool == moved + Items(c)
    modifies nb, pool`hh_prev, pool`hh_next
    ensures Filling(nb[..], nc', slot, nodes, pool, ideal, nonideal')
  {
    var h := first;
    nonideal', nc' := nonideal, nc;
    ghost var rest: seq<Handle>, all: set<Handle> := c, moved;
    while h != null
      invariant Remaining(h, rest, nodes, all)
      invariant all + Items(rest) == pool
      invariant Filling(nb[..], nc', slot, nodes, all, ideal, nonideal')
      decreases |rest|
    {
      var next := h.hh_next;
      NextRemains(rest, nodes, all);
      ghost var touched := all + {rest[0]};
      nonideal', nc' := MoveHeld(h, nb, slot, ideal, nonideal', nc', nodes, all, touched);
      all, rest := touched, rest[1..];
      h := next;
    }
  }

  /** The old chains, as far as they stay put: where they start and what is in them. */
  ghost predicate OldChains(bs: seq<Bucket>, cs: seq<seq<Handle>>, nodes: set<Handle>) {
    |bs| == |cs| && forall b :: 0 <= b < |cs| ==> AllIn(cs[b], nodes) && NoDup(cs[b]) && bs[b].hh_head == First(cs[b])
  }

  /** The old chains from i on still hang together. */
  ghost predicate Unspread(cs: seq<seq<Handle>>, i: nat, nodes: set<Handle>)
    reads nodes`hh_next
  {
    forall b, j :: i <= b < |cs| && 0 <= j < |cs[b]| ==>
      && cs[b][j] in nodes
      && (j + 1 < |cs[b]| ==> cs[b][j].hh_next == cs[b][j + 1])
      && (j + 1 == |cs[b]| ==> cs[b][j].hh_next == null)
  }

  ghost predicate Placed(cs: seq<seq<Handle>>, slot: nat -> nat, nodes: set<Handle>)
    reads nodes`hashv
  {
    forall b, j :: 0 <= b < |cs| && 0 <= j < |cs[b]| ==> cs[b][j] in nodes && slot(cs[b][j].hashv) == b
  }

  /** Entry i of ms holds the items of the first i buckets. */
  ghost predicate Layers(ms: seq<set<Handle>>, cs: seq<seq<Handle>>, nodes: set<Handle>) {
    && |ms| == |cs| + 1 && ms[0] == {} && ms[|cs|] == nodes
    && forall i :: 0 <= i < |cs| ==> Layer(ms[i], ms[i + 1], cs, i)
  }

  ghost predicate Layer(m: set<Handle>, m': set<Handle>, cs: seq<seq<Handle>>, i: nat)
    requires i < |cs|
  {
    m' == m + Items(cs[i]) && Avoids(cs, i, m) && Avoids(cs, i + 1, m')
  }

  ghost predicate Avoids(cs: seq<seq<Handle>>, i: nat, touched: set<Handle>) {
    forall b, j :: i <= b < |cs| && 0 <= j < |cs[b]| ==> cs[b][j] !in touched
  }

  ghost function Below(nodes: set<Handle>, slot: nat -> nat, i: nat): set<Handle>
    reads nodes`hashv
  {
    set h | h in nodes && slot(h.hashv) < i
  }

  lemma BelowLayers(cs: seq<seq<Handle>>, slot: nat -> nat, nodes: set<Handle>) returns (ms: seq<set<Handle>>)
    requires Holds(cs, slot, nodes, nodes) && Placed(cs, slot, nodes)
    ensures Layers(ms, cs, nodes)
  {
    ms := seq(|cs| + 1, i requires 0 <= i reads nodes`hashv => Below(nodes, slot, i));
    forall i | 0 <= i < |cs| ensures Layer(ms[i], ms[i + 1], cs, i) {
    }
    assert Below(nodes, slot, |cs|) == nodes;
  }

  /** One turn of the expansion's outer loop. */
  method SpreadBucket(bk: Bucket, nb: array<Bucket>, ghost slot: nat -> nat, ideal: nat, nonideal: nat, ghost i: nat,
                      ghost cs: seq<seq<Handle>>, ghost nc: seq<seq<Handle>>, ghost nodes: set<Handle>,
                      ghost moved: set<Handle>, ghost touched: set<Handle>)
      returns (nonideal': nat, ghost nc': seq<seq<Handle>>)
    requires i < |cs| && Unspread(cs, i, nodes)
    requires Remaining(bk.hh_head, cs[i], nodes, moved) && touched == moved + Items(cs[i]) && Avoids(cs, i + 1, touched)
    requires Slots(slot, nb.Length) && Filling(nb[..], nc, slot, nodes, moved, ideal, nonideal)
    modifies nb, touched`hh_prev, touched`hh_next
    ensures Unspread(cs, i + 1, nodes)
    ensures Filling(nb[..], nc', slot, nodes, touched, ideal, nonideal')
  {
    nonideal', nc' := SpreadChain(bk.hh_head, nb, slot, ideal, nonideal, cs[i], nc, nodes, moved, touched);
  }

  /** The expansion's outer loop: moves every item of the buckets bs into the new buckets, which have exponent k. */
  method SpreadAll(bs: array<Bucket>, nb: array<Bucket>, ghost slot: nat -> nat, ideal: nat,
                   ghost cs: seq<seq<Handle>>, ghost nodes: set<Handle>, ghost ms: seq<set<Handle>>)
      returns (nonideal: nat, ghost nc: seq<seq<Handle>>)
    requires bs != nb && ideal >= 1 && Slots(slot, nb.Length) && forall b :: 0 <= b < nb.Length ==> nb[b] == Bucket(null, 0, 0)
    requires OldChains(bs[..], cs, nodes) && Unspread(cs, 0, nodes) && Layers(ms, cs, nodes)
    modifies nb, nodes`hh_prev, nodes`hh_next
    ensures Filling(nb[..], nc, slot, nodes, nodes, ideal, nonideal)
  {
    nonideal, nc := 0, seq(nb.Length, _ => []);
    OverflowOfEmpty(nc, ideal);
    var i := 0;
    while i < bs.Length
      invariant i <= bs.Length == |cs| && bs[..] == old(bs[..])
      invariant Unspread(cs, i, nodes)
      invariant Filling(nb[..], nc, slot, nodes, ms[i], ideal, nonideal)
    {
      assert Layer(ms[i], ms[i + 1], cs, i);
      nonideal, nc := SpreadBucket(bs[i], nb, slot, ideal, nonideal, i, cs, nc, nodes, ms[i], ms[i + 1]);
      i := i + 1;
    }
  }

  /** Allocates the doubled buckets and fills them. */
  method Redistribute(bs: array<Bucket>, ghost slot: nat -> nat, ghost slot': nat -> nat, ideal: nat, ghost cs: seq<seq<Handle>>, ghost nodes: set<Handle>)
      returns (nb: array<Bucket>, nonideal: nat, ghost nc: seq<seq<Handle>>)
    requires Slots(slot, bs.Length) && Slots(slot', 2 * bs.Length)
    requires ideal >= 1 && BucketsOk(bs[..], cs, slot, nodes) && Holds(cs, slot, nodes, nodes)
    modifies nodes`hh_prev, nodes`hh_next
    ensures fresh(nb) && nb.Length == 2 * bs.Length
    ensures Filling(nb[..], nc, slot', nodes, nodes, ideal, nonideal)
  {
    nb := new Bucket[2 * bs.Length](_ => Bucket(null, 0, 0));
    ghost var ms := BelowLayers(cs, slot, nodes);
    nonideal, nc := SpreadAll(bs, nb, slot', ideal, cs, nodes, ms);
  }

  // ---------- one item in or out ----------

  /** HASH_ADD_TO_BKT without the test for expansion. */
  method AddItem(h: Handle, bs: array<Bucket>, ghost slot: nat -> nat, ghost cs: seq<seq<Handle>>,
                 ghost nodes: set<Handle>, ghost nodes': set<Handle>)
      returns (b: nat, ghost cs': seq<seq<Handle>>)
    requires Slots(slot, bs.Length) && BucketsOk(bs[..], cs, slot, nodes') && Holds(cs, slot, nodes', nodes)
    requires h !in nodes && nodes' == nodes + {h}
    modifies bs, nodes'`hh_prev, nodes'`hh_next
    ensures b == ToBkt(h.hashv, bs.Length) == slot(h.hashv) < bs.Length && cs' == cs[b := [h] + cs[b]]
    ensures bs[b].count == |cs[b]| + 1 && bs[b].expand_mult == old(bs[b].expand_mult)
    ensures BucketsOk(bs[..], cs', slot, nodes') && Holds(cs', slot, nodes', nodes')
  {
    b := ToBkt(h.hashv, bs.Length);
    NotHeld(bs[..], cs, slot, nodes', nodes, h);
    BucketHeld(bs[..], cs, slot, nodes', nodes, b);
    NowHeld(cs, slot, nodes', nodes, h);
    assert bs[..][b] == bs[b];
    var bk := bs[b];
    bk := bk.(count := bk.count + 1);
    bk := LinkBucket(bk, h, bs[..], cs, b, slot, nodes');
    cs' := cs[b := [h] + cs[b]];
    BucketReplaced(bs[..], cs, b, bk, cs'[b], slot, nodes');
    ghost var was := bs[..];
    bs[b] := bk;
    assert bs[..] == was[b := bk];
  }

  /** A chain without its item number j. */
  function Without<T>(c: seq<T>, j: nat): seq<T>
    requires j < |c|
  {
    c[..j] + c[j + 1..]
  }

  /** Once h has left its chain, the buckets hold the other items. */
  lemma Removed(bs: seq<Bucket>, cs: seq<seq<Handle>>, slot: nat -> nat, nodes: set<Handle>, h: Handle, b: nat, j: nat, bk: Bucket)
    requires |bs| == |cs| && InRange(slot, |cs|) && Holds(cs, slot, nodes, nodes) && h in nodes && b == slot(h.hashv)
    requires j < |cs[b]| && cs[b][j] == h && NoDup(cs[b]) && AllIn(cs[b], nodes)
    requires forall i :: 0 <= i < |cs[b]| ==> slot(cs[b][i].hashv) == b
    requires Chain(bk.hh_head, Without(cs[b], j)) && bk.count == |cs[b]| - 1
    requires forall a :: 0 <= a < |cs| && a != b ==> BucketOk(bs[a], cs[a], a, slot, nodes)
    ensures var cs', rest := cs[b := Without(cs[b], j)], nodes - {h};
      BucketsOk(bs[b := bk], cs', slot, rest) && Holds(cs', slot, rest, rest)
  {
    var c, d := cs[b], Without(cs[b], j);
    var cs', rest := cs[b := d], nodes - {h};
    assert forall i :: 0 <= i < |d| ==> d[i] == c[if i < j then i else i + 1];
    forall a | 0 <= a < |cs| && a != b ensures BucketOk(bs[a], cs[a], a, slot, rest) {
      assert BucketOk(bs[a], cs[a], a, slot, nodes);
    }
    assert BucketOk(bk, d, b, slot, rest);
    forall x | x in rest ensures x in cs'[slot(x.hashv)] {
      if slot(x.hashv) == b {
        assert x in Items(d);
      }
    }
  }

  /** The bucket half of HASH_DELETE. */
  method RemoveItem(h: Handle, bs: array<Bucket>, ghost slot: nat -> nat, ghost cs: seq<seq<Handle>>, ghost nodes: set<Handle>)
      returns (ghost cs': seq<seq<Handle>>)
    requires Slots(slot, bs.Length) && BucketsOk(bs[..], cs, slot, nodes) && Holds(cs, slot, nodes, nodes) && h in nodes
    modifies bs, nodes`hh_prev, nodes`hh_next
    ensures BucketsOk(bs[..], cs', slot, nodes - {h}) && Holds(cs', slot, nodes - {h}, nodes - {h})
  {
    var b := ToBkt(h.hashv, bs.Length);
    assert bs[..][b] == bs[b] && BucketOk(bs[b], cs[b], b, slot, nodes);
    ghost var c := cs[b];
    ghost var j :| 0 <= j < |c| && c[j] == h;
    forall a | 0 <= a < |cs| && a != b ensures Apart(cs[a], c) {
      ChainsApart(bs[..], cs, slot, nodes, a, b);
    }
    var bk := Unlink(bs[b], h, c, j);
    cs' := cs[b := Without(c, j)];
    Removed(bs[..], cs, slot, nodes, h, b, j, bk);
    ghost var was := bs[..];
    bs[b] := bk;
    assert bs[..] == was[b := bk];
  }

  // ---------- counting ----------

  function SumLen(cs: seq<seq<Handle>>): nat {
    if cs == [] then 0 else SumLen(cs[..|cs| - 1]) + |cs[|cs| - 1]|
  }

  lemma {:induction false} ItemsCount(c: seq<Handle>)
    requires NoDup(c)
    ensures |Items(c)| == |c|
    decreases |c|
  {
    if c != [] {
      var rest := c[..|c| - 1];
      ItemsCount(rest);
      assert Items(c) == Items(rest) + {c[|c| - 1]};
    } else {
      assert Items(c) == {};
    }
  }

  lemma {:induction false} LayersCount(ms: seq<set<Handle>>, cs: seq<seq<Handle>>, nodes: set<Handle>, i: nat)
    requires Layers(ms, cs, nodes) && i <= |cs| && forall b :: 0 <= b < |cs| ==> NoDup(cs[b])
    ensures SumLen(cs[..i]) == |ms[i]|
  {
    if i > 0 {
      LayersCount(ms, cs, nodes, i - 1);
      assert Layer(ms[i - 1], ms[i], cs, i - 1);
      assert cs[..i][..i - 1] == cs[..i - 1];
      ItemsCount(cs[i - 1]);
      assert ms[i - 1] !! Items(cs[i - 1]);
    }
  }

  /** The chain lengths add up to the number of items. */
  lemma ChainsCount(bs: seq<Bucket>, cs: seq<seq<Handle>>, slot: nat -> nat, nodes: set<Handle>)
    requires BucketsOk(bs, cs, slot, nodes) && Holds(cs, slot, nodes, nodes)
    ensures SumLen(cs) == |nodes|
  {
    var ms := BelowLayers(cs, slot, nodes);
    LayersCount(ms, cs, nodes, |cs|);
    assert cs[..|cs|] == cs;
  }

  /** HASH_FSCK on one bucket. */
  method CheckChain(bk: Bucket, ghost c: seq<Handle>) returns (ok: bool, bkt_count: nat)
    requires Chain(bk.hh_head, c) && bk.count == |c|
    ensures ok && bkt_count == |c|
  {
    ok, bkt_count := true, 0;
    var thh, prev: Handle? := bk.hh_head, null;
    while thh != null
      invariant ok && bkt_count <= |c| && thh == First(c[bkt_count..]) && prev == Last(c[..bkt_count])
      decreases |c| - bkt_count
    {
      assert thh == c[bkt_count];
      if prev != thh.hh_prev { ok := false; }
      bkt_count := bkt_count + 1;
      prev := thh;
      thh := thh.hh_next;
    }
    assert bkt_count == |c| by { FirstIsNull(c[bkt_count..]); }
    if bk.count != bkt_count { ok := false; }
  }

  /** HASH_FSCK on the application order. */
  method CheckOrder(first: Handle, ghost s: seq<Handle>) returns (ok: bool, count: nat)
    requires s != [] && first == s[0] && Order(s)
    ensures ok && count == |s|
  {
    ok, count := true, 0;
    var thh: Handle?, prev: Handle? := first, null;
    while thh != null
      invariant ok && count <= |s| && thh == First(s[count..]) && prev == Last(s[..count])
      decreases |s| - count
    {
      assert thh == s[count];
      if prev != thh.prev { ok := false; }
      count := count + 1;
      prev := thh;
      thh := thh.next;
    }
    assert count == |s| by { FirstIsNull(s[count..]); }
  }
}
