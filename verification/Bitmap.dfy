/**
 The 64-bit acknowledgement bitmap of a request record
 (src/consensus/consensus.c: update_record, reached_quorum).
 Words are natural numbers, `|` is defined bit by bit.
 */
module Bitmap {

  function Pow2(n: nat): (r: nat)
    ensures r >= 1
  {
    if n == 0 then 1 else 2 * Pow2(n - 1)
  }

  function Bit(b: nat, i: nat): bool {
    if i == 0 then b % 2 == 1 else Bit(b / 2, i - 1)
  }

  /** Bitwise or. */
  function Or(a: nat, b: nat): nat {
    if a == 0 then b
    else if b == 0 then a
    else (if a % 2 == 1 || b % 2 == 1 then 1 else 0) + 2 * Or(a / 2, b / 2)
  }

  /** __builtin_popcountl */
  function PopCount(b: nat): nat {
    if b == 0 then 0 else b % 2 + PopCount(b / 2)
  }

  /** The node ids whose bit is set. */
  function Members(b: nat, n: nat): set<nat> {
    set i: nat | i < n && Bit(b, i)
  }

  /** update_record: set the bit of one node. */
  function UpdateRecord(bitMap: nat, nodeId: nat): nat {
    Or(bitMap, Pow2(nodeId))
  }

  /** reached_quorum */
  predicate ReachedQuorum(bitMap: nat, groupSize: nat) {
    PopCount(bitMap) >= groupSize / 2 + 1
  }

  lemma {:induction false} ZeroBit(i: nat)
    ensures !Bit(0, i)
  {
    if i > 0 {
      ZeroBit(i - 1);
    }
  }

  lemma {:induction false} OrBit(a: nat, b: nat, i: nat)
    ensures Bit(Or(a, b), i) <==> Bit(a, i) || Bit(b, i)
  {
    ZeroBit(i);
    if a != 0 && b != 0 && i > 0 {
      OrBit(a / 2, b / 2, i - 1);
      assert Or(a, b) / 2 == Or(a / 2, b / 2);
    }
  }

  lemma {:induction false} Pow2Bit(k: nat, i: nat)
    ensures Bit(Pow2(k), i) <==> i == k
  {
    if k == 0 {
      if i > 0 {
        ZeroBit(i - 1);
      }
    } else if i > 0 {
      assert Pow2(k) / 2 == Pow2(k - 1);
      Pow2Bit(k - 1, i - 1);
    }
  }

  lemma {:induction false} OrBound(a: nat, b: nat, n: nat)
    requires a < Pow2(n) && b < Pow2(n)
    ensures Or(a, b) < Pow2(n)
  {
    if a != 0 && b != 0 {
      OrBound(a / 2, b / 2, n - 1);
    }
  }

  lemma {:induction false} Pow2Monotone(k: nat, n: nat)
    requires k < n
    ensures Pow2(k) < Pow2(n)
  {
    if k + 1 < n {
      Pow2Monotone(k, n - 1);
    }
  }

  /** Updating a record adds exactly one node to its members. */
  lemma UpdateRecordMembers(bitMap: nat, nodeId: nat, n: nat)
    requires bitMap < Pow2(n) && nodeId < n
    ensures UpdateRecord(bitMap, nodeId) < Pow2(n)
    ensures Members(UpdateRecord(bitMap, nodeId), n) == Members(bitMap, n) + {nodeId}
  {
    Pow2Monotone(nodeId, n);
    OrBound(bitMap, Pow2(nodeId), n);
    forall i: nat
      ensures Bit(UpdateRecord(bitMap, nodeId), i) <==> Bit(bitMap, i) || i == nodeId
    {
      OrBit(bitMap, Pow2(nodeId), i);
      Pow2Bit(nodeId, i);
    }
  }

  /** Bits counted from the bottom; only a stepping stone. */
  function CountBelow(b: nat, n: nat): nat {
    if n == 0 then 0 else CountBelow(b, n - 1) + (if Bit(b, n - 1) then 1 else 0)
  }

  lemma {:induction false} CountBelowIsCardinality(b: nat, n: nat)
    ensures CountBelow(b, n) == |Members(b, n)|
  {
    if n == 0 {
      assert Members(b, 0) == {};
    } else {
      CountBelowIsCardinality(b, n - 1);
      assert Members(b, n) == Members(b, n - 1) + (if Bit(b, n - 1) then {n - 1} else {});
    }
  }

  lemma {:induction false} CountBelowShift(b: nat, n: nat)
    requires n > 0
    ensures CountBelow(b, n) == b % 2 + CountBelow(b / 2, n - 1)
  {
    if n > 1 {
      CountBelowShift(b, n - 1);
    }
  }

  lemma {:induction false} PopCountIsCountBelow(b: nat, n: nat)
    requires b < Pow2(n)
    ensures PopCount(b) == CountBelow(b, n)
  {
    if n > 0 {
      PopCountIsCountBelow(b / 2, n - 1);
      CountBelowShift(b, n);
    }
  }

  /** The population count of a bitmap is the number of nodes recorded in it. */
  lemma PopCountIsCardinality(b: nat, n: nat)
    requires b < Pow2(n)
    ensures PopCount(b) == |Members(b, n)|
  {
    PopCountIsCountBelow(b, n);
    CountBelowIsCardinality(b, n);
  }

  /** All nodes recorded in a bitmap: no bit from b on is set in b. */
  function Recorded(b: nat): set<nat> {
    Members(b, b)
  }

  lemma {:induction false} BitBound(b: nat, i: nat)
    requires Bit(b, i)
    ensures i < Pow2(i) <= b
  {
    if i > 0 {
      BitBound(b / 2, i - 1);
    }
  }

  lemma RecordedMembers(b: nat, n: nat)
    requires b < Pow2(n)
    ensures Recorded(b) == Members(b, n)
  {
    forall i: nat | Bit(b, i) ensures i < b && i < n {
      BitBound(b, i);
      if n < i {
        Pow2Monotone(n, i);
      }
    }
  }

  lemma {:induction false} BelowPow2(b: nat)
    ensures b < Pow2(b)
  {
    if b > 0 {
      BelowPow2(b - 1);
    }
  }

  /** The test of reached_quorum succeeds exactly if more than half of the group is recorded. */
  lemma QuorumIsMajority(b: nat, groupSize: nat)
    ensures ReachedQuorum(b, groupSize) <==> 2 * |Recorded(b)| > groupSize
    ensures b < Pow2(groupSize) ==> (ReachedQuorum(b, groupSize) <==> 2 * |Members(b, groupSize)| > groupSize)
  {
    BelowPow2(b);
    PopCountIsCardinality(b, b);
    if b < Pow2(groupSize) {
      RecordedMembers(b, groupSize);
    }
  }
}
