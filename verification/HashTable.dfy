/**
 The table of src/include/proxy/uthash.h: add, find, delete, replace, expand and
 sort on one heap of linked items. HASH_FSCK is method Fsck; Valid is what it
 checks plus where each item belongs.
 */
module HashTable {
  import opened Basics
  import opened MergeSort
  import opened HashSort
  import opened HashChain
  import opened BucketIndex
  import opened Bitmap

  const INITIAL_NUM_BUCKETS_LOG2: nat := 5
  const BKT_CAPACITY_THRESH: nat := 10

  /** No two items have the same key: what HASH_ADD asks of its caller. */
  ghost predicate UniqueKeys(s: seq<Handle>) {
    forall g, h :: g in s && h in s && g.key == h.key ==> g == h
  }

  /** The finite map that the table stands for. */
  ghost function Contents(s: seq<Handle>): map<seq<bv8>, Handle>
    requires UniqueKeys(s)
  {
    map h | h in s :: h.key := h
  }

  /** An expansion that leaves more than half the items badly placed is ineffective; two in a row end expansion. */
  predicate Judged(nonideal: nat, items: nat, ineff: nat, noexpand: bool, ineff': nat, noexpand': bool) {
    && ineff' == (if 2 * nonideal > items then ineff + 1 else 0)
    && noexpand' == (noexpand || ineff' > 1)
  }

  /** A table's expansions from its making on: how many items each left badly placed, of how many; and the two fields before
      and after each. */
  predicate Expansions(nonideal: seq<nat>, items: seq<nat>, ineff: seq<nat>, noexpand: seq<bool>) {
    && |nonideal| == |items| == |ineff| - 1 == |noexpand| - 1 && ineff[0] == 0 && !noexpand[0]
    && forall t :: 0 <= t < |items| ==> Judged(nonideal[t], items[t], ineff[t], noexpand[t], ineff[t + 1], noexpand[t + 1])
  }

  /** Expansion t left more than half of the items badly placed. */
  predicate Ineffective(nonideal: seq<nat>, items: seq<nat>, t: int)
    requires 0 <= t < |items| == |nonideal|
  {
    nonideal[t] > items[t] as int - nonideal[t] as int
  }

  /** Expanding is given up exactly once two expansions in a row have been ineffective. */
  lemma {:induction false} GivesUpAfterTwoInARow(
    nonideal: seq<nat>, items: seq<nat>, ineff: seq<nat>, noexpand: seq<bool>, t: nat)
    requires Expansions(nonideal, items, ineff, noexpand) && t <= |items|
    ensures ineff[t] > 0 <==> t > 0 && Ineffective(nonideal, items, t - 1)
    ensures noexpand[t] <==> exists u :: 0 < u < t && Ineffective(nonideal, items, u - 1) && Ineffective(nonideal, items, u)
  {
    if t > 0 {
      GivesUpAfterTwoInARow(nonideal, items, ineff, noexpand, t - 1);
      assert Judged(nonideal[t - 1], items[t - 1], ineff[t - 1], noexpand[t - 1], ineff[t], noexpand[t]);
      if noexpand[t] && !noexpand[t - 1] {
        assert Ineffective(nonideal, items, t - 2) && Ineffective(nonideal, items, t - 1);
      }
    }
  }

  /** With a power of two, HASH_TO_BKT always gives a bucket. */
  lemma SlotsOf(k: nat) returns (slot: nat -> nat)
    ensures Slots(slot, Pow2(k))
  {
    slot := x => ToBkt(x, Pow2(k));
    forall x ensures ToBkt(x, Pow2(k)) < Pow2(k) {
      ToBktIsIndex(x, k);
    }
  }

  class Table {
    const fcn: seq<bv8> -> nat   // HASH_FCN; any function of the key
    var head: Handle?
    var tail: Handle?
    var buckets: array<Bucket>
    var num_buckets: nat
    var log2_num_buckets: nat
    var num_items: nat
    var ideal_chain_maxlen: nat
    var nonideal_items: nat
    var ineff_expands: nat
    var noexpand: bool
    ghost var app: seq<Handle>            // the items in application order
    ghost var chains: seq<seq<Handle>>    // the items of each bucket
    ghost var nodes: set<Handle>          // the items
    ghost var slot: nat -> nat            // the bucket of a hash value

    /** The representation invariant. */
    ghost predicate Valid()
      reads this, buckets, nodes
    {
      && nodes == Items(app) && (head == null <==> app == [])
      && (head != null ==> Listed() && Keyed() && Bucketed())
    }

    /** The doubly linked list in application order. */
    ghost predicate Listed()
      reads this`app, this`nodes, this`head, this`tail, this`num_items, nodes`next, nodes`prev
    {
      AllIn(app, nodes) && app != [] && head == app[0] && tail == app[|app| - 1] && num_items == |app| && Order(app)
    }

    ghost predicate Keyed()
      reads this`app, this`nodes, nodes`hashv
    {
      UniqueKeys(app) && forall h :: h in nodes ==> h.hashv == fcn(h.key)
    }

    ghost predicate Bucketed()
      reads this`buckets, this`num_buckets, this`log2_num_buckets, this`chains, this`slot, this`nodes,
            buckets, nodes`hh_prev, nodes`hh_next, nodes`hashv
    {
      Stored(nodes)
    }

    /** The buckets hold exactly the items of ns, each where its hash value says. */
    ghost predicate Stored(ns: set<Handle>)
      reads this`buckets, this`num_buckets, this`log2_num_buckets, this`chains, this`slot,
            buckets, ns`hh_prev, ns`hh_next, ns`hashv
    {
      && buckets.Length == num_buckets == Pow2(log2_num_buckets) && Slots(slot, num_buckets)
      && BucketsOk(buckets[..], chains, slot, ns)
      && Holds(chains, slot, ns, ns)
    }

    constructor (fcn: seq<bv8> -> nat)
      ensures Valid() && app == [] && this.fcn == fcn
    {
      this.fcn := fcn;
      head, tail, buckets := null, null, new Bucket[0];
      num_buckets, log2_num_buckets, num_items := 0, 0, 0;
      ideal_chain_maxlen, nonideal_items, ineff_expands, noexpand := 0, 0, 0, false;
      app, chains, nodes, slot := [], [], {}, _ => 0;
    }

    /** HASH_FIND: the table answers as the finite map does. */
    method Find(key: seq<bv8>) returns (out: Handle?)
      requires Valid()
      ensures out == if key in Contents(app) then Contents(app)[key] else null
    {
      out := null;
      if head != null {
        var b := ToBkt(fcn(key), num_buckets);
        assert BucketOk(buckets[..][b], chains[b], b, slot, nodes);
        out := FindInBucket(buckets[b], key, chains[b]);
        if key in Contents(app) {
          ghost var h := Contents(app)[key];
          ghost var i :| 0 <= i < |app| && app[i] == h;
          assert h in chains[b];
        }
      }
    }

    /** HASH_EXPAND_BUCKETS */
    method Expand()
      requires Bucketed() && num_items > 0
      modifies this`buckets, this`num_buckets, this`log2_num_buckets, this`ideal_chain_maxlen, this`nonideal_items,
               this`ineff_expands, this`noexpand, this`chains, this`slot, nodes`hh_prev, nodes`hh_next
      ensures Bucketed() && fresh(buckets)
      ensures num_buckets == 2 * old(num_buckets) && log2_num_buckets == old(log2_num_buckets) + 1
      ensures ideal_chain_maxlen == IdealChain(num_items, old(log2_num_buckets) + 1)
      ensures Filling(buckets[..], chains, slot, nodes, nodes, ideal_chain_maxlen, nonideal_items)
      ensures Judged(nonideal_items, num_items, old(ineff_expands), old(noexpand), ineff_expands, noexpand)
    {
      hide Holds;
      var ideal := IdealChain(num_items, log2_num_buckets + 1);
      IdealChainIsPositive(num_items, log2_num_buckets + 1);
      var nb;
      var nonideal;
      ghost var nc;
      ghost var slot' := SlotsOf(log2_num_buckets + 1);
      nb, nonideal, nc := Redistribute(buckets, slot, slot', ideal, chains, nodes);
      Install(nb, ideal, nonideal, nc, slot');
    }

    /** Puts the doubled buckets in place. */
    method Swap(nb: array<Bucket>, ideal: nat, nonideal: nat, ghost nc: seq<seq<Handle>>, ghost slot': nat -> nat)
      modifies this`buckets, this`num_buckets, this`log2_num_buckets, this`ideal_chain_maxlen, this`nonideal_items, this`ineff_expands, this`noexpand, this`chains, this`slot
      ensures buckets == nb && chains == nc && slot == slot' && ideal_chain_maxlen == ideal && nonideal_items == nonideal
      ensures num_buckets == 2 * old(num_buckets) && log2_num_buckets == old(log2_num_buckets) + 1
      ensures Judged(nonideal, num_items, old(ineff_expands), old(noexpand), ineff_expands, noexpand)
    {
      ideal_chain_maxlen, nonideal_items := ideal, nonideal;
      num_buckets := num_buckets * 2;
      log2_num_buckets := log2_num_buckets + 1;
      buckets, chains, slot := nb, nc, slot';
      ineff_expands := if nonideal_items > num_items / 2 then ineff_expands + 1 else 0;
      if ineff_expands > 1 {
        noexpand := true;
      }
    }

    /** Swap, and what it means for the items: they are in the doubled buckets. */
    method Install(nb: array<Bucket>, ideal: nat, nonideal: nat, ghost nc: seq<seq<Handle>>, ghost slot': nat -> nat)
      requires nb.Length == 2 * num_buckets == Pow2(log2_num_buckets + 1) && Slots(slot', nb.Length)
      requires Filling(nb[..], nc, slot', nodes, nodes, ideal, nonideal)
      modifies this`buckets, this`num_buckets, this`log2_num_buckets, this`ideal_chain_maxlen, this`nonideal_items, this`ineff_expands, this`noexpand, this`chains, this`slot
      ensures buckets == nb && chains == nc && slot == slot' && ideal_chain_maxlen == ideal && nonideal_items == nonideal
      ensures num_buckets == 2 * old(num_buckets) && log2_num_buckets == old(log2_num_buckets) + 1
      ensures Judged(nonideal, num_items, old(ineff_expands), old(noexpand), ineff_expands, noexpand)
      ensures Bucketed() && Filling(buckets[..], chains, slot, nodes, nodes, ideal_chain_maxlen, nonideal_items)
    {
      Swap(nb, ideal, nonideal, nc, slot');
    }

    // ---------- HASH_ADD ----------

    /** The first half of HASH_ADD_KEYPTR on a table that has items: h goes to the end of the application order. */
    method AppendApp(h: Handle)
      requires Listed() && NotIn(h, app) 
      modifies this`tail, this`num_items, this`app, this`nodes, tail`next, h`next, h`prev
      ensures app == old(app) + [h] && nodes == old(nodes) + {h} && Listed()
    {
      h.next := null;
      tail.next := h;
      h.prev := tail;
      tail := h;
      num_items := num_items + 1;
      app := app + [h];
      nodes := nodes + {h};
    }

    /** HASH_MAKE_TABLE */
    method MakeTable()
      requires head != null
      modifies this`tail, this`buckets, this`num_buckets, this`log2_num_buckets, this`num_items, this`ideal_chain_maxlen,
               this`nonideal_items, this`ineff_expands, this`noexpand, this`chains, this`slot
      ensures tail == head && num_items == 0 && !noexpand && fresh(buckets)
      ensures buckets.Length == num_buckets == Pow2(log2_num_buckets) && Slots(slot, num_buckets)
      ensures |chains| == num_buckets
      ensures forall b :: 0 <= b < num_buckets ==> buckets[b] == Bucket(null, 0, 0) && chains[b] == []
    {
      hide ToBkt;
      ideal_chain_maxlen, nonideal_items, ineff_expands, noexpand, num_items := 0, 0, 0, false, 0;
      tail := head;
      num_buckets := 32;
      log2_num_buckets := INITIAL_NUM_BUCKETS_LOG2;
      buckets := new Bucket[32](_ => Bucket(null, 0, 0));
      chains := seq(32, _ => []);
      slot := SlotsOf(INITIAL_NUM_BUCKETS_LOG2);
    }

    /** The first half of HASH_ADD_KEYPTR on an empty table. */
    method StartApp(h: Handle)
      modifies this, h`next, h`prev
      ensures app == [h] && nodes == {h} && Listed() && fresh(buckets)
      ensures Stored({})
    {
      h.next := null;
      head := h;
      h.prev := null;
      MakeTable();
      num_items := num_items + 1;
      app, nodes := [h], {h};
    }

    /** HASH_ADD_TO_BKT: h is in the list but not yet in a bucket. */
    method AddToBkt(h: Handle, ghost before: set<Handle>)
      requires h !in before && nodes == before + {h} && num_items > 0
      requires buckets.Length == num_buckets == Pow2(log2_num_buckets) && Slots(slot, num_buckets)
      requires BucketsOk(buckets[..], chains, slot, nodes) && Holds(chains, slot, nodes, before)
      modifies this`buckets, this`num_buckets, this`log2_num_buckets, this`ideal_chain_maxlen, this`nonideal_items,
               this`ineff_expands, this`noexpand, this`chains, this`slot, buckets, nodes`hh_prev, nodes`hh_next
      ensures Bucketed() && (buckets == old(buckets) || fresh(buckets))
      ensures var grown := ToBkt(h.hashv, old(num_buckets));
        var due := |old(chains)[grown]| + 1 >= (old(buckets[..])[grown].expand_mult + 1) * BKT_CAPACITY_THRESH;
        num_buckets == if due && !old(noexpand) then 2 * old(num_buckets) else old(num_buckets)
    {
      hide Holds, BucketOk, Filling;
      var b;
      b, chains := AddItem(h, buckets, slot, chains, before, nodes);
      if buckets[b].count >= (buckets[b].expand_mult + 1) * BKT_CAPACITY_THRESH && !noexpand {
        Expand();
      }
    }

    /** The first half of HASH_ADD_KEYPTR: h enters the application order. */
    method Enlist(h: Handle)
      requires Valid() && h !in nodes
      modifies this, h`next, h`prev, nodes`next
      ensures app == old(app) + [h] && nodes == old(nodes) + {h} && Listed()
      ensures nodes == Items(app) && Stored(old(nodes)) && (buckets == old(buckets) || fresh(buckets))
    {
      hide BucketsOk, Holds, Slots, Order;
      ItemsAppend(app, h);
      if head == null {
        assert nodes == {};
        StartApp(h);
      } else {
        ghost var bs := buckets[..];
        AppendApp(h);
        assert buckets[..] == bs;
      }
    }

    /** The same, with the hash value of h: all that is missing is its bucket. */
    method EnlistHashed(h: Handle)
      requires Valid() && h !in nodes && h.key !in Contents(app)
      modifies this, h`next, h`prev, h`hashv, nodes`next
      ensures app == old(app) + [h] && nodes == old(nodes) + {h} == Items(app) && Listed() && Keyed()
      ensures Contents(app) == old(Contents(app))[h.key := h]
      ensures buckets.Length == num_buckets == Pow2(log2_num_buckets) && Slots(slot, num_buckets)
      ensures BucketsOk(buckets[..], chains, slot, nodes) && Holds(chains, slot, nodes, old(nodes))
      ensures buckets == old(buckets) || fresh(buckets)
    {
      hide BucketsOk, Holds, Slots, Order, UniqueKeys, Contents, Items;
      ghost var before := nodes;
      UniqueAppend(app, h);
      Enlist(h);
      ghost var bs := buckets[..];
      h.hashv := fcn(h.key);
      assert buckets[..] == bs;
      Widen(bs, chains, slot, before, h);
    }

    /** HASH_ADD_KEYPTR: the map the table stands for gains h, the order gains it at the end. */
    method Add(h: Handle)
      requires Valid() && h !in nodes && h.key !in Contents(app)
      modifies this, buckets, h, nodes`next, nodes`hh_prev, nodes`hh_next
      ensures Valid() && app == old(app) + [h] && nodes == old(nodes) + {h}
      ensures Contents(app) == old(Contents(app))[h.key := h]
      ensures buckets == old(buckets) || fresh(buckets)
    {
      hide BucketsOk, Holds, Slots, Order, UniqueKeys, Contents, Items, Keyed;
      EnlistHashed(h);
      AddToBkt(h, old(nodes));
    }

    // ---------- HASH_DELETE ----------

    /** Takes item number i out of the application order; it is not the only one. */
    method UnlinkApp(h: Handle, ghost i: nat)
      requires Listed() && i < |app| && app[i] == h && |app| > 1
      modifies this`head, this`tail, nodes`next, nodes`prev
      ensures var s := Without(app, i);
        s != [] && head == s[0] && tail == s[|s| - 1] && Order(s)
    {
      hide Without;
      assert h.prev == if i == 0 then null else app[i - 1];
      assert h.next == if i == |app| - 1 then null else app[i + 1];
      if h == tail {
        tail := h.prev;
      }
      if h.prev != null {
        h.prev.next := h.next;
      } else {
        head := h.next;
      }
      if h.next != null {
        h.next.prev := h.prev;
      }
      SkippedOrder(app, i);
    }

    /** Only the last item of a table has no neighbour. */
    lemma LoneItem(h: Handle, i: nat)
      requires Listed() && i < |app| && app[i] == h
      ensures h.prev == null && h.next == null <==> |app| == 1
    {
      assert i > 0 ==> h.prev == app[i - 1];
      assert i < |app| - 1 ==> h.next == app[i + 1];
    }

    lemma RestIn(i: nat)
      requires Valid() && i < |app|
      ensures AllIn(Without(app, i), nodes - {app[i]})
    {
      var d := Without(app, i);
      assert forall j :: 0 <= j < |d| ==> d[j] in Items(d);
    }

    method DropFromBuckets(h: Handle)
      requires Bucketed() && h in nodes
      modifies this`chains, buckets, nodes`hh_prev, nodes`hh_next
      ensures Stored(nodes - {h})
    {
      hide BucketsOk, Holds;
      chains := RemoveItem(h, buckets, slot, chains, nodes);
    }

    /** HASH_DELETE of an item that is not the only one. */
    method Drop(h: Handle, ghost i: nat)
      requires Valid() && |app| > 1 && i < |app| && app[i] == h
      modifies this`head, this`tail, this`num_items, this`app, this`nodes, this`chains, buckets,
               nodes`next, nodes`prev, nodes`hh_prev, nodes`hh_next
      ensures app == Without(old(app), i) && nodes == old(nodes) - {h} && app != [] && Listed() && Bucketed()
    {
      hide Stored, Order, UniqueKeys, Keyed, Items;
      ghost var rest := nodes - {h};
      RestIn(i);
      UnlinkApp(h, i);
      DropFromBuckets(h);
      num_items := num_items - 1;
      app, nodes := Without(app, i), rest;
    }

    /** HASH_DELETE: the map the table stands for loses the key of h, everything else keeps its place. */
    method Delete(h: Handle)
      requires Valid() && h in nodes
      modifies this`head, this`tail, this`num_items, this`app, this`nodes, this`chains, buckets,
               nodes`next, nodes`prev, nodes`hh_prev, nodes`hh_next
      ensures Valid() && nodes == old(nodes) - {h}
      ensures exists i :: 0 <= i < |old(app)| && old(app)[i] == h && app == Without(old(app), i)
      ensures Contents(app) == old(Contents(app)) - {h.key}
    {
      hide BucketsOk, Holds, Slots, UniqueKeys, Contents;
      ghost var i :| 0 <= i < |app| && app[i] == h;
      WithoutKey(app, i);
      LoneItem(h, i);
      if h.prev == null && h.next == null {
        head := null;
        app, nodes := Without(app, i), nodes - {h};
      } else {
        Drop(h, i);
      }
    }

    /** HASH_REPLACE: whatever had the key of h makes way for h. */
    method Replace(h: Handle) returns (replaced: Handle?)
      requires Valid()
      modifies this, buckets, h, nodes`next, nodes`prev, nodes`hh_prev, nodes`hh_next
      ensures Valid() && Contents(app) == old(Contents(app))[h.key := h]
      ensures replaced == if h.key in old(Contents(app)) then old(Contents(app))[h.key] else null
      ensures nodes == old(nodes) - {replaced} + {h}
      ensures buckets == old(buckets) || fresh(buckets)
    {
      hide Listed, Bucketed, Keyed, UniqueKeys, Contents;
      replaced := Find(h.key);
      KnownKey(h);
      if replaced != null {
        Delete(replaced);
      }
      Add(h);
    }

    lemma KnownKey(h: Handle)
      requires Valid()
      ensures h in nodes ==> h.key in Contents(app) && Contents(app)[h.key] == h
      ensures h.key in Contents(app) ==> Contents(app)[h.key] in nodes && Contents(app)[h.key].key == h.key
    {
    }

    // ---------- HASH_SRT ----------

    method SortListed(cmp: (Handle, Handle) -> int)
      requires Listed() && nodes == Items(app) && |app| < TWO_32
      requires Items(Sort(app, cmp)) == nodes && |Sort(app, cmp)| == |app|
      modifies this`head, this`tail, this`app, nodes`next, nodes`prev
      ensures Listed() && app == Sort(old(app), cmp)
    {
      hide Order, Sort;
      ghost var t := Sort(app, cmp);
      assert forall i :: 0 <= i < |t| ==> t[i] in Items(t);
      head, tail := SortList(head, cmp, app);
      app := t;
    }

    /** HASH_SRT: the application order is sorted; buckets and contents stay. */
    method Srt(cmp: (Handle, Handle) -> int)
      requires Valid() && |app| < TWO_32
      modifies this`head, this`tail, this`app, nodes`next, nodes`prev
      ensures Valid() && app == Sort(old(app), cmp)
      ensures Contents(app) == old(Contents(app))
    {
      hide Bucketed, Order, UniqueKeys, Contents, Sort;
      SortKeeps(app, cmp);
      if head != null {
        SortListed(cmp);
      }
    }

    // ---------- HASH_FSCK ----------

    /** HASH_FSCK never complains of a valid table. */
    method Fsck() returns (ok: bool)
      requires Valid()
      ensures ok
    {
      hide Holds, Slots, UniqueKeys;
      ok := true;
      if head != null {
        ItemsCount(app);
        ChainsCount(buckets[..], chains, slot, nodes);
        var count, i := 0, 0;
        while i < num_buckets
          invariant ok && i <= num_buckets && count == SumLen(chains[..i])
        {
          assert BucketOk(buckets[..][i], chains[i], i, slot, nodes);
          var good, n := CheckChain(buckets[i], chains[i]);
          ok := ok && good;
          count := count + n;
          i := i + 1;
          assert chains[..i][..i - 1] == chains[..i - 1];
        }
        assert chains[..i] == chains;
        if count != num_items { ok := false; }
        var good, n := CheckOrder(head, app);
        if !good || n != num_items { ok := false; }
      }
    }
  }

  /** A list that skips its item number i, at both links. */
  ghost predicate Skips(s: seq<Handle>, i: nat)
    requires i < |s|
    reads s`next, s`prev
  {
    && (forall j :: 0 <= j < |s| - 1 && j != i - 1 && j != i ==> s[j].next == s[j + 1])
    && (forall j :: 1 <= j < |s| && j != i && j != i + 1 ==> s[j].prev == s[j - 1])
    && (i < |s| - 1 ==> s[|s| - 1].next == null && s[i + 1].prev == if i == 0 then null else s[i - 1])
    && (i > 0 ==> s[0].prev == null && s[i - 1].next == if i == |s| - 1 then null else s[i + 1])
  }

  lemma SkippedOrder(s: seq<Handle>, i: nat)
    requires i < |s| && |s| > 1 && NoDup(s) && Skips(s, i)
    ensures var d := Without(s, i);
      |d| == |s| - 1 && Order(d) && d[0] == s[if i == 0 then 1 else 0] && d[|d| - 1] == s[if i == |s| - 1 then i - 1 else |s| - 1]
  {
    var d := Without(s, i);
    assert forall j :: 0 <= j < |d| ==> d[j] == s[if j < i then j else j + 1];
  }

  lemma ItemsAppend(s: seq<Handle>, h: Handle)
    ensures Items(s + [h]) == Items(s) + {h}
  {
  }

  lemma UniqueAppend(s: seq<Handle>, h: Handle)
    requires UniqueKeys(s) && h.key !in Contents(s)
    ensures s == [] ==> Items(s) == {}
    ensures UniqueKeys(s + [h]) && Contents(s + [h]) == Contents(s)[h.key := h]
  {
    forall g | g in s + [h] ensures g in Items(s) || g == h {
    }
  }

  lemma WithoutKey(s: seq<Handle>, i: nat)
    requires UniqueKeys(s) && NoDup(s) && i < |s|
    ensures UniqueKeys(Without(s, i)) && Contents(Without(s, i)) == Contents(s) - {s[i].key}
    ensures Items(Without(s, i)) == Items(s) - {s[i]}
  {
    ContentsLess(s, Without(s, i), s[i]);
  }

  lemma ContentsLess(s: seq<Handle>, d: seq<Handle>, x: Handle)
    requires UniqueKeys(s) && x in s && Items(d) == Items(s) - {x}
    ensures UniqueKeys(d) && Contents(d) == Contents(s) - {x.key}
  {
    assert forall g :: g in d <==> g in Items(d);
    var m, m' := Contents(s), Contents(d);
    assert forall k :: k in m' ==> k in m && k != x.key && m'[k] == m[k];
    assert forall k :: k in m && k != x.key ==> k in m';
  }

  lemma SortKeeps(s: seq<Handle>, cmp: (Handle, Handle) -> int)
    requires UniqueKeys(s)
    ensures var t := Sort(s, cmp); |t| == |s| && Items(t) == Items(s) && UniqueKeys(t) && Contents(t) == Contents(s)
  {
    SortFromPermutes(s, 1, cmp);
    SameItems(s, Sort(s, cmp));
    SameContents(s, Sort(s, cmp));
  }

  lemma SameItems(s: seq<Handle>, t: seq<Handle>)
    requires multiset(s) == multiset(t)
    ensures |t| == |s| && Items(t) == Items(s)
  {
    assert |multiset(t)| == |multiset(s)|;
    assert forall h :: h in t <==> h in multiset(t);
    assert forall h :: h in s <==> h in multiset(s);
  }

  lemma SameContents(s: seq<Handle>, t: seq<Handle>)
    requires UniqueKeys(s) && Items(t) == Items(s)
    ensures UniqueKeys(t) && Contents(t) == Contents(s)
  {
    assert forall h :: h in s <==> h in Items(s);
    assert forall h :: h in t <==> h in Items(t);
  }

  /** An item in no bucket may be told of. */
  lemma Widen(bs: seq<Bucket>, cs: seq<seq<Handle>>, slot: nat -> nat, nodes: set<Handle>, h: Handle)
    requires BucketsOk(bs, cs, slot, nodes) && Holds(cs, slot, nodes, nodes) && h !in nodes
    ensures BucketsOk(bs, cs, slot, nodes + {h}) && Holds(cs, slot, nodes + {h}, nodes)
  {
    forall b | 0 <= b < |cs| ensures BucketOk(bs[b], cs[b], b, slot, nodes + {h}) && h !in cs[b] {
      assert BucketOk(bs[b], cs[b], b, slot, nodes);
    }
  }
}
