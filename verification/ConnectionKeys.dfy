/**
 The connection identifiers of src/proxy/proxy.c: gen_key packs a node id, the
 node's 16-bit connection count and the second of the accept into 64 bits.
 */
module ConnectionKeys {
  import opened Basics
  import opened Bitmap

  const COUNTS: nat := 0x1_0000            // 2^16
  const TIMES: nat := 0x10_0000_0000       // 2^36
  const NODES: nat := 0x1000               // 2^12

  /** gen_key: `time | node_id << 52 | node_count << 36`, the shifts within 64 bits. */
  function GenKey(nodeId: nat, nodeCount: nat, time: nat): nat {
    Or(Or(time, nodeId * (COUNTS * TIMES) % WORD), nodeCount * TIMES % WORD)
  }

  lemma {:induction false} OrCommutes(a: nat, b: nat)
    ensures Or(a, b) == Or(b, a)
  {
    if a != 0 && b != 0 {
      OrCommutes(a / 2, b / 2);
    }
  }

  /** The bits below 2^k and those from 2^k on do not meet. */
  lemma {:induction false} OrAbove(k: nat, a: nat, u: nat, c: nat)
    requires a < Pow2(k)
    ensures Or(a + Pow2(k) * u, Pow2(k) * c) == a + Pow2(k) * Or(u, c)
  {
    hide Or;
    if k > 0 {
      var p := Pow2(k - 1);
      var pu, pc, po := p * u, p * c, p * Or(u, c);
      Twice(p, u);
      Twice(p, c);
      Twice(p, Or(u, c));
      OrAbove(k - 1, a / 2, u, c);
      OrHalves(a + 2 * pu, 2 * pc);
      assert (a + 2 * pu) / 2 == a / 2 + pu && (a + 2 * pu) % 2 == a % 2;
    }
  }

  lemma Twice(p: nat, x: nat)
    ensures (2 * p) * x == 2 * (p * x)
  {
  }

  lemma OrHalves(a: nat, b: nat)
    ensures Or(a, b) == (if a % 2 == 1 || b % 2 == 1 then 1 else 0) + 2 * Or(a / 2, b / 2)
  {
  }

  lemma OrZero(a: nat)
    ensures Or(0, a) == a
  {
  }

  lemma Powers()
    ensures Pow2(16) == COUNTS && Pow2(36) == TIMES
  {
    assert Pow2(8) == 0x100;
    assert Pow2(16) == COUNTS;
    assert Pow2(24) == 0x100_0000;
    assert Pow2(32) == 0x1_0000_0000;
  }

  /** Each field has its own bits. */
  lemma KeyIsSum(n: nat, c: nat, t: nat)
    requires n < NODES && c < COUNTS && t < TIMES
    ensures GenKey(n, c, t) == t + TIMES * (c + COUNTS * n)
  {
    hide Or, Pow2;
    Powers();
    OrZero(COUNTS * n);
    OrZero(n);
    var u := COUNTS * n;
    OrAbove(36, t, 0, u);
    OrAbove(36, t, u, c);
    OrCommutes(u, c);
    OrAbove(16, c, 0, n);
  }

  /** Different node, count or time: different key. */
  lemma KeysApart(n: nat, c: nat, t: nat, n': nat, c': nat, t': nat)
    requires n < NODES && c < COUNTS && t < TIMES && n' < NODES && c' < COUNTS && t' < TIMES
    ensures GenKey(n, c, t) == GenKey(n', c', t') <==> n == n' && c == c' && t == t'
  {
    hide GenKey;
    KeyIsSum(n, c, t);
    KeyIsSum(n', c', t');
  }

  lemma Gap(base: nat, x: nat, y: nat)
    requires x < y
    ensures base * x + base <= base * y
  {
    Distribute(base, x, y - x);
    Distribute(base, 1, y - x - 1);
  }

  lemma Distribute(base: nat, a: nat, b: nat)
    ensures base * (a + b) == base * a + base * b
  {
  }

  /** The key of a node's connection number i, accepted at times[i]; pair_count wraps at 16 bits. */
  function KeyOf(n: nat, times: seq<nat>, i: nat): nat
    requires i < |times|
  {
    GenKey(n, i % COUNTS, times[i])
  }

  /** A clock that does not go back. */
  predicate Clock(times: seq<nat>) {
    (forall i :: 0 <= i < |times| ==> times[i] < TIMES) && forall i, j :: 0 <= i < j < |times| ==> times[i] <= times[j]
  }

  /** No 2^16 + 1 connections are accepted within one second. */
  predicate Unhurried(times: seq<nat>) {
    forall i :: 0 <= i < |times| - COUNTS ==> times[i] < times[i + COUNTS]
  }

  predicate AllApart(accepts: seq<seq<nat>>) {
    forall n, i, n', i' ::
      (&& 0 <= n < |accepts| && 0 <= i < |accepts[n]| && 0 <= n' < |accepts| && 0 <= i' < |accepts[n']|
       && KeyOf(n, accepts[n], i) == KeyOf(n', accepts[n'], i'))
      ==> n == n' && i == i'
  }

  lemma SameNode(n: nat, times: seq<nat>, i: nat, j: nat)
    requires n < NODES && Clock(times) && Unhurried(times) && i < j < |times|
    ensures KeyOf(n, times, i) != KeyOf(n, times, j)
  {
    KeysApart(n, i % COUNTS, times[i], n, j % COUNTS, times[j]);
    if i % COUNTS == j % COUNTS {
      assert j - i >= COUNTS;
      assert times[i] < times[i + COUNTS] <= times[j];
    }
  }

  /** The identifiers of all connections of all nodes are distinct if and only if no node accepts 2^16 + 1 connections in a second. */
  lemma KeysDistinct(accepts: seq<seq<nat>>)
    requires |accepts| <= NODES && forall n :: 0 <= n < |accepts| ==> Clock(accepts[n])
    ensures AllApart(accepts) <==> forall n :: 0 <= n < |accepts| ==> Unhurried(accepts[n])
  {
    if forall n :: 0 <= n < |accepts| ==> Unhurried(accepts[n]) {
      forall n, i, n', i' | 0 <= n < |accepts| && 0 <= i < |accepts[n]| && 0 <= n' < |accepts| && 0 <= i' < |accepts[n']| &&
        KeyOf(n, accepts[n], i) == KeyOf(n', accepts[n'], i')
        ensures n == n' && i == i'
      {
        KeysApart(n, i % COUNTS, accepts[n][i], n', i' % COUNTS, accepts[n'][i']);
        if i < i' {
          SameNode(n, accepts[n], i, i');
        } else if i' < i {
          SameNode(n, accepts[n], i', i);
        }
      }
    }
    if AllApart(accepts) {
      forall n, i | 0 <= n < |accepts| && 0 <= i < |accepts[n]| - COUNTS
        ensures accepts[n][i] < accepts[n][i + COUNTS]
      {
        HurriedClash(n, accepts[n], i);
      }
    }
  }

  lemma HurriedClash(n: nat, times: seq<nat>, i: nat)
    requires i + COUNTS < |times| && Clock(times)
    ensures times[i] == times[i + COUNTS] ==> KeyOf(n, times, i) == KeyOf(n, times, i + COUNTS)
    ensures times[i] <= times[i + COUNTS]
  {
    assert i % COUNTS == (i + COUNTS) % COUNTS;
  }
}
