/**
 Machine words, bytes and what several modules need about sets.
 */
module Basics {

  const TWO_32: nat := 0x1_0000_0000
  const WORD: nat := 0x1_0000_0000_0000_0000

  type uint32 = x: int | 0 <= x < TWO_32
  type uint64 = x: int | 0 <= x < WORD
  type Byte = x: int | 0 <= x < 256

  datatype Option<T> = None | Some(value: T)

  lemma SubsetIsSmaller<T>(a: set<T>, b: set<T>)
    requires a <= b
    ensures |a| <= |b|
  {
    assert b == a + (b - a);
  }
}
