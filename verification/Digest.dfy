/**
 The streaming half of MD5 and SHA-1 in client-ld-preload/Mongoose_Aget/mongoose/mongoose.c:
 buffering, the two-word bit counter and the padding, around a block transform
 that is taken as given.
 */
module Digest {
  import opened Basics

  // ---------- what a digest is: sections 3.1 to 3.4 of RFC 1321, sections 4 and 6 of RFC 3174 ----------

  /** All full blocks of m go through the transform. */
  function Absorb<S>(f: (S, seq<Byte>) -> S, s: S, m: seq<Byte>): S {
    if |m| < 64 then s else Absorb(f, f(s, m[..64]), m[64..])
  }

  /** What does not fill a block. */
  function Tail(m: seq<Byte>): seq<Byte> {
    m[|m| - |m| % 64..]
  }

  function Zeros(n: nat): (r: seq<Byte>)
    ensures |r| == n
  {
    seq(n, _ => 0)
  }

  /** How many zero bytes bring a message, the mark behind it and eight bytes of length to whole blocks. */
  function Gap(n: nat): (z: nat)
    ensures z < 64 && (n + 1 + z) % 64 == 56
  {
    (55 - n) % 64
  }

  function Padded(m: seq<Byte>, length: seq<Byte>): seq<Byte> {
    m + [0x80] + Zeros(Gap(|m|)) + length
  }

  /** Eight bytes, low byte of the low word first (MD5) ... */
  function LowFirst(lo: uint32, hi: uint32): (r: seq<Byte>)
    ensures |r| == 8
  {
    [lo % 256, lo / 256 % 256, lo / 0x1_0000 % 256, lo / 0x100_0000,
     hi % 256, hi / 256 % 256, hi / 0x1_0000 % 256, hi / 0x100_0000]
  }

  /** ... or high byte of the high word first (SHA-1). */
  function HighFirst(lo: uint32, hi: uint32): (r: seq<Byte>)
    ensures |r| == 8
  {
    [hi / 0x100_0000, hi / 0x1_0000 % 256, hi / 256 % 256, hi % 256,
     lo / 0x100_0000, lo / 0x1_0000 % 256, lo / 256 % 256, lo % 256]
  }

  /** The message length in bits, as two words: modulo 2^64. */
  function LowBits(n: nat): uint32 {
    8 * n % TWO_32
  }

  function HighBits(n: nat): uint32 {
    8 * n / TWO_32 % TWO_32
  }

  // ---------- the same, without naming the bytes ----------

  /** Bytes read as a number, low byte first ... */
  function ReadLow(b: seq<Byte>): nat {
    if b == [] then 0 else b[0] + 256 * ReadLow(b[1..])
  }

  /** ... or high byte first. */
  function ReadHigh(b: seq<Byte>): nat {
    if b == [] then 0 else 256 * ReadHigh(b[..|b| - 1]) + b[|b| - 1]
  }

  /** p is m, a byte 0x80, as few zero bytes as bring it eight bytes short of whole blocks, and eight more bytes. */
  predicate PaddingOf(m: seq<Byte>, p: seq<Byte>) {
    && |p| % 64 == 0 && |m| + 9 <= |p| < |m| + 73
    && p[..|m|] == m && p[|m|] == 0x80
    && forall j :: |m| < j < |p| - 8 ==> p[j] == 0
  }

  function Last8(p: seq<Byte>): seq<Byte> {
    if |p| < 8 then p else p[|p| - 8..]
  }

  /** The transform over the padded message, whose last eight bytes are its length in bits modulo 2^64, low byte first. */
  ghost predicate Md5Digest<S>(f: (S, seq<Byte>) -> S, init: S, m: seq<Byte>, digest: S) {
    exists p :: PaddingOf(m, p) && ReadLow(Last8(p)) == 8 * |m| % WORD && digest == Absorb(f, init, p)
  }

  /** The same, high byte first. */
  ghost predicate Sha1Digest<S>(f: (S, seq<Byte>) -> S, init: S, m: seq<Byte>, digest: S) {
    exists p :: PaddingOf(m, p) && ReadHigh(Last8(p)) == 8 * |m| % WORD && digest == Absorb(f, init, p)
  }

  lemma PaddedIsPadding(m: seq<Byte>, length: seq<Byte>)
    requires |length| == 8
    ensures PaddingOf(m, Padded(m, length)) && Last8(Padded(m, length)) == length
  {
  }

  lemma ReadsLow(lo: uint32, hi: uint32)
    ensures ReadLow(LowFirst(lo, hi)) == lo + TWO_32 * hi
  {
    hide ReadLow;
    var b := LowFirst(lo, hi);
    WordBytes(lo);
    WordBytes(hi);
    WordLow(b[..4], b[4..]);
    WordLow(b[4..], []);
    assert b == b[..4] + b[4..] && b[4..] == b[4..] + [];
    NothingRead();
  }

  lemma ReadsHigh(lo: uint32, hi: uint32)
    ensures ReadHigh(HighFirst(lo, hi)) == lo + TWO_32 * hi
  {
    hide ReadHigh;
    var b := HighFirst(lo, hi);
    WordBytes(lo);
    WordBytes(hi);
    WordHigh(b[..4], b[4..]);
    WordHigh([], b[..4]);
    assert b == b[..4] + b[4..] && b[..4] == [] + b[..4];
    NothingRead();
  }

  lemma NothingRead()
    ensures ReadLow([]) == 0 && ReadHigh([]) == 0
  {
  }

  lemma WordBytes(x: uint32)
    ensures x == x % 256 + 0x100 * (x / 256 % 256) + 0x1_0000 * (x / 0x1_0000 % 256) + 0x100_0000 * (x / 0x100_0000)
  {
    assert x / 0x1_0000 == x / 256 / 256 && x / 0x100_0000 == x / 0x1_0000 / 256;
  }

  lemma ByteLow(b: Byte, rest: seq<Byte>)
    ensures ReadLow([b] + rest) == b + 256 * ReadLow(rest)
  {
    assert ([b] + rest)[1..] == rest;
  }

  /** Four bytes and what follows. */
  lemma WordLow(w: seq<Byte>, rest: seq<Byte>)
    requires |w| == 4
    ensures ReadLow(w + rest) ==
      w[0] + 0x100 * (w[1] as int) + 0x1_0000 * (w[2] as int) + 0x100_0000 * (w[3] as int) + TWO_32 * ReadLow(rest)
  {
    hide ReadLow;
    ByteLow(w[3], rest);
    ByteLow(w[2], [w[3]] + rest);
    ByteLow(w[1], [w[2]] + ([w[3]] + rest));
    ByteLow(w[0], [w[1]] + ([w[2]] + ([w[3]] + rest)));
    assert w + rest == [w[0]] + ([w[1]] + ([w[2]] + ([w[3]] + rest)));
  }

  lemma ByteHigh(before: seq<Byte>, b: Byte)
    ensures ReadHigh(before + [b]) == 256 * ReadHigh(before) + b
  {
    assert (before + [b])[..|before|] == before;
  }

  lemma WordHigh(before: seq<Byte>, w: seq<Byte>)
    requires |w| == 4
    ensures ReadHigh(before + w) ==
      TWO_32 * ReadHigh(before) + 0x100_0000 * (w[0] as int) + 0x1_0000 * (w[1] as int) + 0x100 * (w[2] as int) + w[3]
  {
    hide ReadHigh;
    ByteHigh(before, w[0]);
    ByteHigh(before + [w[0]], w[1]);
    ByteHigh(before + [w[0]] + [w[1]], w[2]);
    ByteHigh(before + [w[0]] + [w[1]] + [w[2]], w[3]);
    assert before + w == before + [w[0]] + [w[1]] + [w[2]] + [w[3]];
  }

  lemma PaddedIsMd5<S>(f: (S, seq<Byte>) -> S, init: S, m: seq<Byte>)
    ensures Md5Digest(f, init, m, Absorb(f, init, Padded(m, LowFirst(LowBits(|m|), HighBits(|m|)))))
  {
    hide LowFirst, LowBits, HighBits, Padded, PaddingOf, Absorb, ReadLow;
    var length := LowFirst(LowBits(|m|), HighBits(|m|));
    PaddedIsPadding(m, length);
    ReadsLow(LowBits(|m|), HighBits(|m|));
    CounterIsLength(|m|);
  }

  lemma PaddedIsSha1<S>(f: (S, seq<Byte>) -> S, init: S, m: seq<Byte>)
    ensures Sha1Digest(f, init, m, Absorb(f, init, Padded(m, HighFirst(LowBits(|m|), HighBits(|m|)))))
  {
    hide HighFirst, LowBits, HighBits, Padded, PaddingOf, Absorb, ReadHigh;
    var length := HighFirst(LowBits(|m|), HighBits(|m|));
    PaddedIsPadding(m, length);
    ReadsHigh(LowBits(|m|), HighBits(|m|));
    CounterIsLength(|m|);
  }

  lemma {:induction false} ReadLowOnce(a: seq<Byte>, b: seq<Byte>)
    requires |a| == |b| && ReadLow(a) == ReadLow(b)
    ensures a == b
  {
    if a != [] {
      LowDigit(a[0], ReadLow(a[1..]), b[0], ReadLow(b[1..]));
      ReadLowOnce(a[1..], b[1..]);
      assert a == [a[0]] + a[1..] && b == [b[0]] + b[1..];
    }
  }

  lemma {:induction false} ReadHighOnce(a: seq<Byte>, b: seq<Byte>)
    requires |a| == |b| && ReadHigh(a) == ReadHigh(b)
    ensures a == b
  {
    if a != [] {
      var n := |a| - 1;
      LowDigit(a[n], ReadHigh(a[..n]), b[n], ReadHigh(b[..n]));
      ReadHighOnce(a[..n], b[..n]);
      assert a == a[..n] + [a[n]] && b == b[..n] + [b[n]];
    }
  }

  lemma LowDigit(a: Byte, x: nat, b: Byte, y: nat)
    requires a + 256 * x == b + 256 * y
    ensures a == b && x == y
  {
  }

  lemma PaddingOnce(m: seq<Byte>, p: seq<Byte>, q: seq<Byte>)
    requires PaddingOf(m, p) && PaddingOf(m, q) && Last8(p) == Last8(q)
    ensures p == q
  {
    assert |p| == |q|;
    forall j | 0 <= j < |p| ensures p[j] == q[j] {
      if j < |m| {
        assert p[..|m|][j] == q[..|m|][j];
      } else if j >= |p| - 8 {
        assert Last8(p)[j - (|p| - 8)] == Last8(q)[j - (|p| - 8)];
      }
    }
  }

  /** That determines the digest. */
  lemma DigestIsDetermined<S>(f: (S, seq<Byte>) -> S, init: S, m: seq<Byte>, a: S, b: S)
    ensures Md5Digest(f, init, m, a) && Md5Digest(f, init, m, b) ==> a == b
    ensures Sha1Digest(f, init, m, a) && Sha1Digest(f, init, m, b) ==> a == b
  {
    hide Absorb, ReadLow, ReadHigh;
    if Md5Digest(f, init, m, a) && Md5Digest(f, init, m, b) {
      var p :| PaddingOf(m, p) && ReadLow(Last8(p)) == 8 * |m| % WORD && a == Absorb(f, init, p);
      var q :| PaddingOf(m, q) && ReadLow(Last8(q)) == 8 * |m| % WORD && b == Absorb(f, init, q);
      ReadLowOnce(Last8(p), Last8(q));
      PaddingOnce(m, p, q);
    }
    if Sha1Digest(f, init, m, a) && Sha1Digest(f, init, m, b) {
      var p :| PaddingOf(m, p) && ReadHigh(Last8(p)) == 8 * |m| % WORD && a == Absorb(f, init, p);
      var q :| PaddingOf(m, q) && ReadHigh(Last8(q)) == 8 * |m| % WORD && b == Absorb(f, init, q);
      ReadHighOnce(Last8(p), Last8(q));
      PaddingOnce(m, p, q);
    }
  }

  lemma {:induction false} AbsorbAppend<S>(f: (S, seq<Byte>) -> S, s: S, a: seq<Byte>, b: seq<Byte>)
    requires |a| % 64 == 0
    ensures Absorb(f, s, a + b) == Absorb(f, Absorb(f, s, a), b)
    decreases |a|
  {
    if a == [] {
      assert a + b == b;
    } else {
      assert (a + b)[..64] == a[..64] && (a + b)[64..] == a[64..] + b;
      AbsorbAppend(f, f(s, a[..64]), a[64..], b);
    }
  }

  /** One more full block. */
  lemma AbsorbBlock<S>(f: (S, seq<Byte>) -> S, s: S, a: seq<Byte>, b: seq<Byte>)
    requires |a| % 64 == 0 && |b| == 64
    ensures Absorb(f, s, a + b) == f(Absorb(f, s, a), b)
  {
    AbsorbAppend(f, s, a, b);
    assert b[..64] == b && b[64..] == [];
  }

  lemma NextBlock(done: seq<Byte>, data: seq<Byte>, pos: nat)
    requires pos + 64 <= |data| && |done| % 64 == 0
    ensures var more := done + data[pos..pos + 64];
      |more| % 64 == 0 && done + data[pos..] == more + data[pos + 64..]
  {
    assert data[pos..] == data[pos..pos + 64] + data[pos + 64..];
  }

  /** Less than a block changes nothing. */
  lemma AbsorbTail<S>(f: (S, seq<Byte>) -> S, s: S, a: seq<Byte>, b: seq<Byte>)
    requires |a| % 64 == 0 && |b| < 64
    ensures Absorb(f, s, a + b) == Absorb(f, s, a) && Tail(a + b) == b
  {
    TailOf(a, b);
    AbsorbAppend(f, s, a, b);
  }

  lemma TailOf(a: seq<Byte>, b: seq<Byte>)
    requires |a| % 64 == 0 && |b| < 64
    ensures Tail(a + b) == b
  {
    assert |a + b| % 64 == |b|;
  }

  lemma SplitTail(m: seq<Byte>)
    ensures var a := m[..|m| - |m| % 64]; m == a + Tail(m) && |a| % 64 == 0 && |Tail(m)| == |m| % 64 < 64
  {
  }

  // ---------- the bit counter ----------

  /** The low word of the counter after len more bytes. */
  function CountLow(lo: uint32, len: uint32): uint32 {
    (lo + 8 * len % TWO_32) % TWO_32
  }

  function CountHigh(lo: uint32, hi: uint32, len: uint32): uint32 {
    ((if CountLow(lo, len) < lo then (hi + 1) % TWO_32 else hi) + len / 0x2000_0000) % TWO_32
  }

  /** The carry is seen by the sum being smaller than what was added to: the two words stay 8 times the length modulo 2^64. */
  lemma CounterAdds(n: nat, len: uint32)
    ensures CountLow(LowBits(n), len) == LowBits(n + len)
    ensures CountHigh(LowBits(n), HighBits(n), len) == HighBits(n + len)
    ensures LowBits(n) + TWO_32 * HighBits(n) == 8 * n % WORD
  {
    CounterIsLength(n);
    var lo, add := LowBits(n), 8 * len % TWO_32;
    var q, r := 8 * n / TWO_32, len / 0x2000_0000;
    var carry := if lo + add >= TWO_32 then 1 else 0;
    assert 8 * len == r * TWO_32 + add;
    Quotient(8 * (n + len), q + r + carry, lo + add - carry * TWO_32);
    Quotient(lo + add, carry, lo + add - carry * TWO_32);
    HighAdds(q, carry, r);
  }

  lemma Quotient(a: nat, q: nat, r: nat)
    requires a == q * TWO_32 + r && r < TWO_32
    ensures a / TWO_32 == q && a % TWO_32 == r
  {
  }

  lemma HighAdds(q: nat, carry: nat, r: nat)
    requires carry <= 1
    ensures (((if carry == 1 then (q % TWO_32 + 1) % TWO_32 else q % TWO_32) + r) % TWO_32) == (q + r + carry) % TWO_32
  {
  }

  /** The two words are the length in bits modulo 2^64. */
  lemma CounterIsLength(n: nat)
    ensures LowBits(n) + TWO_32 * HighBits(n) == 8 * n % WORD
  {
    var q := 8 * n / TWO_32;
    assert 8 * n == q * TWO_32 + LowBits(n);
    assert q == q / TWO_32 * TWO_32 + HighBits(n);
    assert 8 * n == q / TWO_32 * WORD + (LowBits(n) + TWO_32 * HighBits(n));
  }

  /** The byte count within a block. */
  lemma CounterIndex(n: nat)
    ensures LowBits(n) / 8 % 64 == n % 64
  {
    var q := 8 * n / TWO_32;
    IndexOfCount(n, q, LowBits(n));
  }

  lemma IndexOfCount(n: nat, q: nat, lo: nat)
    requires 8 * n == q * TWO_32 + lo
    ensures lo / 8 % 64 == n % 64
  {
    var k := n - q * 0x2000_0000;
    assert lo == 8 * k;
    assert k == n - 64 * (q * 0x80_0000);
    SameIndex(n, k, q * 0x80_0000);
  }

  lemma SameIndex(n: nat, k: int, z: nat)
    requires k == n - 64 * z
    ensures k % 64 == n % 64
  {
  }

  // ---------- the two contexts ----------

  /** memcpy(&dst[at], &data[from], n) */
  method Copy(dst: array<Byte>, at: nat, data: seq<Byte>, from: nat, n: nat)
    requires at + n <= dst.Length && from + n <= |data|
    modifies dst
    ensures dst[..] == old(dst[..at]) + data[from..from + n] + old(dst[at + n..])
  {
    forall i | 0 <= i < n {
      dst[at + i] := data[from + i];
    }
  }

  /** memset(&dst[at], 0, n) */
  method Clear(dst: array<Byte>, at: nat, n: nat)
    requires at + n <= dst.Length
    modifies dst
    ensures dst[..] == old(dst[..at]) + Zeros(n) + old(dst[at + n..])
  {
    forall i | 0 <= i < n {
      dst[at + i] := 0;
    }
  }

  /** What a context holds after the message m, however m was cut into updates. */
  ghost predicate Holds<S>(f: (S, seq<Byte>) -> S, init: S, m: seq<Byte>, state: S, lo: uint32, hi: uint32, buffer: seq<Byte>) {
    && state == Absorb(f, init, m) && lo == LowBits(|m|) && hi == HighBits(|m|)
    && |buffer| == 64 && buffer[..|m| % 64] == Tail(m)
  }

  lemma MoreOfABlock<S>(f: (S, seq<Byte>) -> S, init: S, m: seq<Byte>, data: seq<Byte>)
    requires |m| % 64 + |data| < 64
    ensures Absorb(f, init, m + data) == Absorb(f, init, m) && Tail(m + data) == Tail(m) + data
  {
    hide Absorb, Tail;
    SplitTail(m);
    MoreAfter(f, init, m[..|m| - |m| % 64], Tail(m), data);
  }

  lemma MoreAfter<S>(f: (S, seq<Byte>) -> S, init: S, a: seq<Byte>, t: seq<Byte>, data: seq<Byte>)
    requires |a| % 64 == 0 && |t| + |data| < 64
    ensures Absorb(f, init, a + t + data) == Absorb(f, init, a + t) && Tail(a + t + data) == t + data
  {
    hide Absorb, Tail;
    AbsorbTail(f, init, a, t);
    AbsorbTail(f, init, a, t + data);
    assert a + t + data == a + (t + data);
  }

  lemma FillsABlock<S>(f: (S, seq<Byte>) -> S, init: S, m: seq<Byte>, data: seq<Byte>)
    requires |m| % 64 + |data| == 64
    ensures Absorb(f, init, m + data) == f(Absorb(f, init, m), Tail(m) + data) && |m + data| % 64 == 0
  {
    hide Absorb, Tail;
    SplitTail(m);
    var a := m[..|m| - |m| % 64];
    AbsorbTail(f, init, a, Tail(m));
    AbsorbBlock(f, init, a, Tail(m) + data);
    assert m + data == a + (Tail(m) + data);
  }

  /** The blocks that end a message whose last bytes are t. */
  function LastBlocks<S>(f: (S, seq<Byte>) -> S, s: S, t: seq<Byte>, length: seq<Byte>): S
    requires |t| < 64
  {
    if |t| < 56 then f(s, t + [0x80] + Zeros(55 - |t|) + length)
    else f(f(s, t + [0x80] + Zeros(63 - |t|)), Zeros(56) + length)
  }

  /** The padding fits into the block in progress, or takes one more. */
  lemma PaddedBlocks<S>(f: (S, seq<Byte>) -> S, init: S, m: seq<Byte>, length: seq<Byte>)
    requires |length| == 8
    ensures |Padded(m, length)| % 64 == 0
    ensures Absorb(f, init, Padded(m, length)) == LastBlocks(f, Absorb(f, init, m), Tail(m), length)
  {
    hide Absorb, Tail;
    SplitTail(m);
    var c, mark: seq<Byte> := |m| % 64, [0x80];
    var front := m + mark + Zeros(63 - c);
    if c < 56 {
      assert Gap(|m|) == 55 - c;
      FillsABlock(f, init, m, mark + Zeros(55 - c) + length);
      assert m + (mark + Zeros(55 - c) + length) == Padded(m, length);
      assert Tail(m) + (mark + Zeros(55 - c) + length) == Tail(m) + mark + Zeros(55 - c) + length;
    } else {
      assert Gap(|m|) == 119 - c;
      FillsABlock(f, init, m, mark + Zeros(63 - c));
      assert Tail(m) + (mark + Zeros(63 - c)) == Tail(m) + mark + Zeros(63 - c);
      assert m + (mark + Zeros(63 - c)) == front;
      AbsorbBlock(f, init, front, Zeros(56) + length);
      assert Zeros(119 - c) == Zeros(63 - c) + Zeros(56);
      assert front + (Zeros(56) + length) == Padded(m, length);
    }
  }

  class Md5<S> {
    const f: (S, seq<Byte>) -> S   // MD5Transform
    const init: S                  // MD5Init's state
    var state: S
    var bits0: uint32
    var bits1: uint32
    const inp: array<Byte>
    ghost var msg: seq<Byte>       // everything given to Update so far

    ghost predicate Valid()
      reads this, inp
    {
      inp.Length == 64 && Holds(f, init, msg, state, bits0, bits1, inp[..])
    }

    /** MD5Init */
    constructor (f: (S, seq<Byte>) -> S, init: S)
      ensures Valid() && msg == [] && this.f == f && this.init == init && fresh(inp)
    {
      this.f, this.init, state := f, init, init;
      bits0, bits1, msg := 0, 0, [];
      inp := new Byte[64](_ => 0);
    }

    /** The counter of MD5Update; the number of bytes already in the block is returned. */
    method Count(len: uint32) returns (t: nat)
      requires Valid()
      modifies this`bits0, this`bits1
      ensures t == |msg| % 64
      ensures bits0 == LowBits(|msg| + len) && bits1 == HighBits(|msg| + len)
    {
      hide LowBits, HighBits, Absorb, Tail;
      CounterAdds(|msg|, len);
      CounterIndex(|msg|);
      t := bits0;
      bits0 := (t + 8 * len % TWO_32) % TWO_32;
      if bits0 < t {
        bits1 := (bits1 + 1) % TWO_32;
      }
      bits1 := (bits1 + len / 0x2000_0000) % TWO_32;
      t := t / 8 % 64;
    }

    /** MD5Update */
    method Update(data: seq<Byte>)
      requires Valid() && |data| < TWO_32
      modifies this, inp
      ensures Valid() && msg == old(msg) + data
    {
      hide LowBits, HighBits, Absorb, Tail;
      ghost var m := msg;
      var t, len, pos := 0, |data|, 0;
      t := Count(len);
      msg := m + data;
      if t != 0 && len < 64 - t {
        Keep(data, t, m);
        return;
      }
      pos := Fill(data, t, m);
      Copy(inp, 0, data, pos, len - pos);
      assert data[pos..len] == data[pos..];
    }

    /** What MD5Update does when the block in progress stays incomplete. */
    method Keep(data: seq<Byte>, t: nat, ghost m: seq<Byte>)
      requires inp.Length == 64 && t == |m| % 64 && t + |data| < 64 && msg == m + data
      requires state == Absorb(f, init, m) && inp[..t] == Tail(m)
      modifies inp
      ensures state == Absorb(f, init, msg) && |msg| % 64 == t + |data| && inp[..t + |data|] == Tail(msg)
    {
      hide Absorb, Tail;
      MoreOfABlock(f, init, m, data);
      Copy(inp, t, data, 0, |data|);
      assert data[0..|data|] == data;
    }

    /** What MD5Update does when the block in progress is empty or can be completed: everything but the last bytes. */
    method Fill(data: seq<Byte>, t: nat, ghost m: seq<Byte>) returns (pos: nat)
      requires inp.Length == 64 && t == |m| % 64 && (t == 0 || t + |data| >= 64) && msg == m + data
      requires state == Absorb(f, init, m) && inp[..t] == Tail(m)
      modifies this`state, inp
      ensures pos <= |data| < pos + 64
      ensures state == Absorb(f, init, msg) && Tail(msg) == data[pos..] && |msg| % 64 == |data| - pos
    {
      hide Absorb, Tail;
      pos := 0;
      if t != 0 {
        pos := 64 - t;
        FillsABlock(f, init, m, data[..pos]);
        Copy(inp, t, data, 0, pos);
        assert inp[..] == Tail(m) + data[..pos];
        state := f(state, inp[..]);
      }
      assert msg == m + data[..pos] + data[pos..];
      assert m + data[..0] == m;
      pos := Blocks(data, pos, m + data[..pos]);
    }

    /** The loop of MD5Update over whole blocks. */
    method Blocks(data: seq<Byte>, from: nat, ghost front: seq<Byte>) returns (pos: nat)
      requires inp.Length == 64 && from <= |data| && |front| % 64 == 0 && msg == front + data[from..]
      requires state == Absorb(f, init, front)
      modifies this`state, inp
      ensures from <= pos <= |data| < pos + 64
      ensures state == Absorb(f, init, msg) && Tail(msg) == data[pos..] && |msg| % 64 == |data| - pos
    {
      hide Absorb, Tail;
      ghost var done := front;
      pos := from;
      var len: nat := |data| - from;
      while len >= 64
        invariant from <= pos && pos + len == |data| && |done| % 64 == 0 && msg == done + data[pos..]
        invariant state == Absorb(f, init, done)
      {
        NextBlock(done, data, pos);
        Block(data, pos, done);
        done := done + data[pos..pos + 64];
        pos, len := pos + 64, len - 64;
      }
      AbsorbTail(f, init, done, data[pos..]);
    }

    /** One block of data goes through the transform. */
    method Block(data: seq<Byte>, pos: nat, ghost done: seq<Byte>)
      requires inp.Length == 64 && pos + 64 <= |data| && |done| % 64 == 0
      requires state == Absorb(f, init, done)
      modifies this`state, inp
      ensures state == Absorb(f, init, done + data[pos..pos + 64])
    {
      hide Absorb;
      AbsorbBlock(f, init, done, data[pos..pos + 64]);
      CopyBlock(data, pos);
      state := f(state, inp[..]);
    }

    method CopyBlock(data: seq<Byte>, pos: nat)
      requires inp.Length == 64 && pos + 64 <= |data|
      modifies inp
      ensures inp[..] == data[pos..pos + 64]
    {
      Copy(inp, 0, data, pos, 64);
    }

    /** MD5Final: the digest is that of the padded message, with its length in bits modulo 2^64 behind it. */
    method Final() returns (digest: S)
      requires Valid()
      modifies this`state, inp
      ensures digest == Absorb(f, init, Padded(msg, LowFirst(LowBits(|msg|), HighBits(|msg|))))
      ensures Md5Digest(f, init, msg, digest)
    {
      hide LowBits, HighBits, Absorb, Tail, LowFirst, Zeros, Padded, Md5Digest;
      PaddedIsMd5(f, init, msg);
      ghost var length := LowFirst(bits0, bits1);
      CounterIndex(|msg|);
      PaddedBlocks(f, init, msg, length);
      var count := bits0 / 8 % 64;
      inp[count] := 0x80;
      var p := count + 1;
      count := 64 - 1 - count;
      if count < 8 {
        Clear(inp, p, count);
        assert inp[..] == Tail(msg) + [0x80] + Zeros(count);
        state := f(state, inp[..]);
        Clear(inp, 0, 56);
        assert inp[..56] == Zeros(56);
      } else {
        Clear(inp, p, count - 8);
        assert inp[..56] == Tail(msg) + [0x80] + Zeros(count - 8);
      }
      CloseBlock(length);
      digest := state;
    }

    /** The length fills the last block. */
    method CloseBlock(ghost length: seq<Byte>)
      requires inp.Length == 64 && length == LowFirst(bits0, bits1)
      modifies this`state, inp
      ensures state == f(old(state), old(inp[..56]) + length)
    {
      hide LowFirst;
      Copy(inp, 56, LowFirst(bits0, bits1), 0, 8);
      assert inp[..] == old(inp[..56]) + length;
      state := f(state, inp[..]);
    }
  }

  /** SHA1Update's branches, taken on a 32-bit sum: does its last memcpy stay inside the block,
      when j bytes are in it and len more come? After whole blocks less than one is left to copy. */
  predicate CopyFits(j: nat, len: uint32) {
    (j + len) % TWO_32 > 63 || j + len <= 64
  }

  /** It does exactly if the sum does not wrap. */
  lemma LastCopyFits(j: nat, len: uint32)
    requires j < 64
    ensures CopyFits(j, len) <==> j + len < TWO_32
  {
  }

  /** A length that wraps: one byte, then 2^32 - 1 more. */
  lemma WrappingLength()
    ensures !CopyFits(1, TWO_32 - 1)
  {
  }

  /** The loop's i + 63 does not wrap: i is a multiple of 64 less j. */
  lemma SumStaysBelow(i: nat, j: nat, len: nat)
    requires j < 64 && (i + j) % 64 == 0 && i <= len && j + len < TWO_32
    ensures i + 63 < TWO_32
  {
    var q := (i + j) / 64;
    assert 64 * q == i + j && 64 * q < TWO_32;
    assert q < 0x400_0000;
  }

  class Sha1<S> {
    const f: (S, seq<Byte>) -> S   // SHA1Transform
    const init: S
    var state: S
    var count0: uint32
    var count1: uint32
    const buffer: array<Byte>
    ghost var msg: seq<Byte>

    ghost predicate Valid()
      reads this, buffer
    {
      buffer.Length == 64 && Holds(f, init, msg, state, count0, count1, buffer[..])
    }

    /** SHA1Init */
    constructor (f: (S, seq<Byte>) -> S, init: S)
      ensures Valid() && msg == [] && this.f == f && this.init == init && fresh(buffer)
    {
      this.f, this.init, state := f, init, init;
      count0, count1, msg := 0, 0, [];
      buffer := new Byte[64](_ => 0);
    }

    /** The counter of SHA1Update; the number of bytes already in the block is returned. */
    method Count(len: uint32) returns (j: nat)
      requires Valid()
      modifies this`count0, this`count1
      ensures j == |msg| % 64
      ensures count0 == LowBits(|msg| + len) && count1 == HighBits(|msg| + len)
    {
      hide LowBits, HighBits, Absorb, Tail;
      CounterAdds(|msg|, len);
      CounterIndex(|msg|);
      j := count0;
      count0 := (count0 + 8 * len % TWO_32) % TWO_32;
      if count0 < j {
        count1 := (count1 + 1) % TWO_32;
      }
      count1 := (count1 + len / 0x2000_0000) % TWO_32;
      j := j / 8 % 64;
    }

    /** SHA1Update, with its sums in 32 bits; `ok` says whether its last memcpy stays inside the block. */
    method Update(data: seq<Byte>) returns (ok: bool)
      requires Valid() && |data| < TWO_32
      modifies this, buffer
      ensures ok <==> |old(msg)| % 64 + |data| < TWO_32
      ensures ok ==> Valid() && msg == old(msg) + data
    {
      hide LowBits, HighBits, Absorb, Tail;
      ghost var m := msg;
      var len, i := |data|, 0;
      var j := Count(len);
      msg := m + data;
      LastCopyFits(j, len);
      ok := true;
      if (j + len) % TWO_32 > 63 {
        i := Fill(data, j, m);
        CopyLast(data, i);
      } else if j + len <= 64 {
        CopyMore(data, j, m);
      } else {
        ok := false;
      }
    }

    /** The last memcpy of SHA1Update behind whole blocks ... */
    method CopyLast(data: seq<Byte>, i: nat)
      requires buffer.Length == 64 && i <= |data| < i + 64
      requires Tail(msg) == data[i..] && |msg| % 64 == |data| - i
      modifies buffer
      ensures buffer[..|msg| % 64] == Tail(msg)
    {
      hide Tail;
      Copy(buffer, 0, data, i, |data| - i);
      assert data[i..|data|] == data[i..];
    }

    /** ... and when all of the data goes into the block in progress. */
    method CopyMore(data: seq<Byte>, j: nat, ghost m: seq<Byte>)
      requires buffer.Length == 64 && j == |m| % 64 && j + |data| < 64 && msg == m + data
      requires state == Absorb(f, init, m) && buffer[..j] == Tail(m)
      modifies buffer
      ensures state == Absorb(f, init, msg) && buffer[..|msg| % 64] == Tail(msg)
    {
      hide Absorb, Tail;
      MoreOfABlock(f, init, m, data);
      ghost var front := buffer[..j];
      Copy(buffer, j, data, 0, |data|);
      assert data[0..|data|] == data;
      assert buffer[..j + |data|] == front + data;
      SameIndex(|msg|, j + |data|, |m| / 64);
    }

    /** The branch of SHA1Update that completes at least one block. */
    method Fill(data: seq<Byte>, j: nat, ghost m: seq<Byte>) returns (i: nat)
      requires buffer.Length == 64 && j == |m| % 64 && 63 < j + |data| < TWO_32 && msg == m + data
      requires state == Absorb(f, init, m) && buffer[..j] == Tail(m)
      modifies this`state, buffer
      ensures i <= |data| < i + 64
      ensures state == Absorb(f, init, msg) && Tail(msg) == data[i..] && |msg| % 64 == |data| - i
    {
      hide Absorb, Tail;
      i := 64 - j;
      FillsABlock(f, init, m, data[..i]);
      Copy(buffer, j, data, 0, i);
      assert buffer[..] == Tail(m) + data[..i];
      state := f(state, buffer[..]);
      assert msg == m + data[..i] + data[i..];
      i := Blocks(data, i, j, m + data[..i]);
    }

    /** The loop of SHA1Update over whole blocks. */
    method Blocks(data: seq<Byte>, from: nat, ghost j: nat, ghost front: seq<Byte>) returns (i: nat)
      requires from <= |data| && |front| % 64 == 0 && msg == front + data[from..]
      requires j < 64 && (from + j) % 64 == 0 && j + |data| < TWO_32
      requires state == Absorb(f, init, front)
      modifies this`state
      ensures from <= i <= |data| < i + 64
      ensures state == Absorb(f, init, msg) && Tail(msg) == data[i..] && |msg| % 64 == |data| - i
    {
      hide Absorb, Tail;
      ghost var done := front;
      i := from;
      SumStaysBelow(i, j, |data|);
      while (i + 63) % TWO_32 < |data|
        invariant from <= i <= |data| && |done| % 64 == 0 && msg == done + data[i..]
        invariant (i + j) % 64 == 0 && i + 63 < TWO_32
        invariant state == Absorb(f, init, done)
        decreases |data| - i
      {
        NextBlock(done, data, i);
        AbsorbBlock(f, init, done, data[i..i + 64]);
        SumStaysBelow(i + 64, j, |data|);
        state := f(state, data[i..i + 64]);
        done := done + data[i..i + 64];
        i := i + 64;
      }
      AbsorbTail(f, init, done, data[i..]);
    }

    /** SHA1Final: the digest is that of the padded message, with its length in bits modulo 2^64. */
    method Final() returns (digest: S)
      requires Valid()
      modifies this, buffer
      ensures digest == Absorb(f, init, Padded(old(msg), HighFirst(LowBits(|old(msg)|), HighBits(|old(msg)|))))
      ensures Sha1Digest(f, init, old(msg), digest)
    {
      hide Valid, Absorb, HighFirst, Sha1Digest;
      PaddedIsSha1(f, init, msg);
      ghost var m := msg;
      var finalcount := Counts();
      Pad();
      var _ := Update(finalcount);
      digest := Digested();
    }

    method Counts() returns (c: seq<Byte>)
      requires Valid()
      ensures c == HighFirst(LowBits(|msg|), HighBits(|msg|))
    {
      c := HighFirst(count0, count1);
    }

    method Digested() returns (s: S)
      requires Valid()
      ensures s == Absorb(f, init, msg)
    {
      s := state;
    }

    method Room() returns (index: nat)
      requires Valid()
      ensures index == |msg| % 64
    {
      CounterIndex(|msg|);
      index := count0 / 8 % 64;
    }

    /** The mark, and zero bytes until eight bytes of the block are left. */
    method Pad()
      requires Valid()
      modifies this, buffer
      ensures Valid() && msg == old(msg) + [0x80] + Zeros(Gap(|old(msg)|))
    {
      hide Valid, Zeros, Gap;
      ghost var m := msg;
      ghost var k := 0;
      var _ := Update([0x80]);
      var index := Room();
      while index != 56
        invariant Valid() && msg == m + [0x80] + Zeros(k) && k <= Gap(|m|)
        invariant index == |msg| % 64
        decreases Gap(|m|) - k
      {
        var _ := Update([0]);
        OneMoreZero(m + [0x80], k);
        k := k + 1;
        index := Room();
      }
      Reached(|m|, k);
    }
  }

  /** Once eight bytes of the block are left, no more zero bytes are to come. */
  lemma Reached(n: nat, k: nat)
    requires k <= Gap(n) && (n + 1 + k) % 64 == 56
    ensures k == Gap(n)
  {
  }

  lemma OneMoreZero(s: seq<Byte>, k: nat)
    ensures s + Zeros(k) + [0] == s + Zeros(k + 1)
  {
  }
}
