/**
 The bucket arithmetic of src/include/proxy/uthash.h: `hashv & (n - 1)` with n a
 power of two, and the shift-and-mask form of a rounded-up division.
 */
module BucketIndex {
  import opened Bitmap

  /** Bitwise and. */
  function And(a: nat, b: nat): nat {
    if a == 0 || b == 0 then 0
    else (if a % 2 == 1 && b % 2 == 1 then 1 else 0) + 2 * And(a / 2, b / 2)
  }

  /** a >> k */
  function Shr(a: nat, k: nat): nat {
    if k == 0 then a else Shr(a / 2, k - 1)
  }

  /** HASH_TO_BKT */
  function ToBkt(hashv: nat, num_bkts: nat): nat
    requires num_bkts > 0
  {
    And(hashv, num_bkts - 1)
  }

  /** The lowest k bits. */
  function Index(hashv: nat, k: nat): (r: nat)
    ensures r < Pow2(k)
  {
    if k == 0 then 0 else hashv % 2 + 2 * Index(hashv / 2, k - 1)
  }

  /** With 2^k buckets, HASH_TO_BKT keeps the lowest k bits. */
  lemma {:induction false} ToBktIsIndex(h: nat, k: nat)
    ensures ToBkt(h, Pow2(k)) == Index(h, k)
  {
    if k > 0 {
      ToBktIsIndex(h / 2, k - 1);
      assert (Pow2(k) - 1) / 2 == Pow2(k - 1) - 1;
      assert (Pow2(k) - 1) % 2 == 1;
    }
  }

  lemma Doubled(a: nat, b: nat)
    ensures a * (2 * b) == 2 * (a * b)
  {
  }

  /** The index and the shifted value are the remainder and the quotient by 2^k. */
  lemma {:induction false} IndexIsRemainder(h: nat, k: nat)
    ensures Shr(h, k) * Pow2(k) + Index(h, k) == h && Index(h, k) < Pow2(k)
  {
    if k > 0 {
      IndexIsRemainder(h / 2, k - 1);
      Doubled(Shr(h, k), Pow2(k - 1));
    }
  }

  lemma {:induction false} IndexAfterDoubling(h: nat, k: nat)
    ensures Index(h, k + 1) == Index(h, k) || Index(h, k + 1) == Index(h, k) + Pow2(k)
  {
    if k > 0 {
      IndexAfterDoubling(h / 2, k - 1);
    }
  }

  /** After doubling, an item of bucket b goes to b or to b + n. */
  lemma BucketAfterDoubling(h: nat, k: nat)
    ensures var n := Pow2(k); ToBkt(h, 2 * n) == ToBkt(h, n) || ToBkt(h, 2 * n) == ToBkt(h, n) + n
  {
    ToBktIsIndex(h, k);
    ToBktIsIndex(h, k + 1);
    IndexAfterDoubling(h, k);
  }

  /** ceil(n / 2^k), as the expansion computes it. */
  function IdealChain(n: nat, k: nat): nat {
    Shr(n, k) + if Index(n, k) != 0 then 1 else 0
  }

  /** It is the least chain length with which 2^k chains can hold n items. */
  lemma IdealChainIsCeiling(n: nat, k: nat)
    ensures n <= IdealChain(n, k) * Pow2(k)
    ensures n > 0 ==> IdealChain(n, k) >= 1 && (IdealChain(n, k) - 1) * Pow2(k) < n
  {
    hide Index, Shr, Pow2;
    IndexIsRemainder(n, k);
  }

  /** The expansion may divide by it. */
  lemma IdealChainIsPositive(n: nat, k: nat)
    requires n > 0
    ensures IdealChain(n, k) >= 1
  {
    IdealChainIsCeiling(n, k);
  }
}
