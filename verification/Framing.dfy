/**
 Length-prefixed framing: the read loops client_side_on_read of src/proxy/proxy.c
 and replica_on_read of src/replica-sys/replica.c, which hand on every complete
 message of the input buffer and keep the rest for the next read. Sizes are
 added in 64 bits, and the replica's loop holds the announced size in an int.
 */
module Framing {
  import opened Basics

  // ---------- cutting a stream into frames ----------

  /** The size of a header, and how many bytes are cut off when a header reads so. */
  datatype Format = Format(header: nat, size: seq<Byte> -> nat)

  /** The bytes the next turn of the loop cuts off. */
  function FrameSize(f: Format, s: seq<Byte>): nat
    requires |s| >= f.header
  {
    f.size(s[..f.header])
  }

  predicate Complete(f: Format, s: seq<Byte>) {
    |s| >= f.header && |s| >= FrameSize(f, s)
  }

  /** The messages handed on, the bytes after the last of them, and whether the loop ended or stands still. */
  datatype Parsed = Parsed(frames: seq<seq<Byte>>, rest: seq<Byte>, ended: bool)

  /** The loop over a buffer: a turn that cuts off no byte changes nothing, and so neither do all later ones. */
  function Parse(f: Format, s: seq<Byte>): Parsed
    decreases |s|
  {
    if !Complete(f, s) then Parsed([], s, true)
    else
      var n := FrameSize(f, s);
      if n == 0 then Parsed([], s, false)
      else
        var later := Parse(f, s[n..]);
        Parsed([s[..n]] + later.frames, later.rest, later.ended)
  }

  /** One turn. */
  lemma ParseTurn(f: Format, s: seq<Byte>)
    ensures !Complete(f, s) ==> Parse(f, s) == Parsed([], s, true)
    ensures Complete(f, s) && FrameSize(f, s) == 0 ==> Parse(f, s) == Parsed([], s, false)
    ensures Complete(f, s) && FrameSize(f, s) > 0 ==>
      var n := FrameSize(f, s); var later := Parse(f, s[n..]);
      Parse(f, s) == Parsed([s[..n]] + later.frames, later.rest, later.ended)
  {
  }

  function Flatten(ss: seq<seq<Byte>>): seq<Byte> {
    if ss == [] then [] else ss[0] + Flatten(ss[1..])
  }

  /** Nothing is lost or made up. */
  lemma {:induction false} ParseConserves(f: Format, s: seq<Byte>)
    ensures var p := Parse(f, s); s == Flatten(p.frames) + p.rest
    decreases |s|
  {
    if Complete(f, s) && FrameSize(f, s) > 0 {
      var n := FrameSize(f, s);
      var later := Parse(f, s[n..]);
      ParseConserves(f, s[n..]);
    }
  }

  /** Parsing a stream in two parts: the second part is parsed behind what the first left over. */
  lemma {:induction false} ParseInParts(f: Format, a: seq<Byte>, b: seq<Byte>)
    ensures var p := Parse(f, a); var q := Parse(f, p.rest + b);
      Parse(f, a + b) == Parsed(p.frames + q.frames, q.rest, q.ended)
    decreases |a|
  {
    hide Parse;
    ParseTurn(f, a);
    if Complete(f, a) {
      var n := FrameSize(f, a);
      SplitBehind(a, b, f.header);
      SplitBehind(a, b, n);
      ParseTurn(f, a + b);
      if n > 0 {
        ParseInParts(f, a[n..], b);
      }
    }
  }

  lemma SplitBehind(a: seq<Byte>, b: seq<Byte>, n: nat)
    requires n <= |a|
    ensures (a + b)[..n] == a[..n] && (a + b)[n..] == a[n..] + b
  {
  }

  /** What the loop has handed on and kept after a sequence of reads; bytes that arrive once it
      stands still stay unread behind the header it stands at. */
  function AfterReads(f: Format, cuts: seq<seq<Byte>>): Parsed {
    if cuts == [] then Parse(f, [])
    else
      var p := AfterReads(f, cuts[..|cuts| - 1]);
      var q := Parse(f, p.rest + cuts[|cuts| - 1]);
      Parsed(p.frames + q.frames, q.rest, q.ended)
  }

  /** However the stream is cut into reads, the messages handed on, the bytes kept and whether the
      loop stands still are those of the whole stream. */
  lemma {:induction false} SegmentationIndependent(f: Format, cuts: seq<seq<Byte>>)
    ensures AfterReads(f, cuts) == Parse(f, Flatten(cuts))
  {
    if cuts != [] {
      var front, last := cuts[..|cuts| - 1], cuts[|cuts| - 1];
      SegmentationIndependent(f, front);
      FlattenLast(cuts);
      ParseInParts(f, Flatten(front), last);
    }
  }

  lemma {:induction false} FlattenLast(ss: seq<seq<Byte>>)
    requires ss != []
    ensures Flatten(ss) == Flatten(ss[..|ss| - 1]) + ss[|ss| - 1]
  {
    if |ss| > 1 {
      FlattenLast(ss[1..]);
      assert ss[1..][..|ss| - 2] == ss[..|ss| - 1][1..];
      assert Flatten(ss[..|ss| - 1]) == ss[0] + Flatten(ss[..|ss| - 1][1..]);
    } else {
      assert Flatten(ss[1..]) == [];
    }
  }

  // ---------- when the loop ends ----------

  /** The buffer after k turns of the loop. */
  function Turns(f: Format, s: seq<Byte>, k: nat): seq<Byte>
    decreases k
  {
    if k == 0 || !Complete(f, s) then s else Turns(f, s[FrameSize(f, s)..], k - 1)
  }

  ghost predicate Ends(f: Format, s: seq<Byte>) {
    exists k: nat :: !Complete(f, Turns(f, s, k))
  }

  lemma {:induction false} StandsStill(f: Format, s: seq<Byte>, k: nat)
    requires !Parse(f, s).ended
    ensures Complete(f, Turns(f, s, k))
    decreases k
  {
    if k > 0 {
      if FrameSize(f, s) == 0 {
        assert s[0..] == s;
      }
      StandsStill(f, s[FrameSize(f, s)..], k - 1);
    }
  }

  lemma {:induction false} TurnsUntilEnd(f: Format, s: seq<Byte>) returns (k: nat)
    requires Parse(f, s).ended
    ensures !Complete(f, Turns(f, s, k))
    decreases |s|
  {
    k := 0;
    if Complete(f, s) {
      k := TurnsUntilEnd(f, s[FrameSize(f, s)..]);
      k := k + 1;
    }
  }

  /** The loop ends exactly if it meets no complete frame of size 0. */
  lemma LoopEnds(f: Format, s: seq<Byte>)
    ensures Ends(f, s) <==> Parse(f, s).ended
  {
    if Parse(f, s).ended {
      var _ := TurnsUntilEnd(f, s);
    } else {
      forall k: nat ensures Complete(f, Turns(f, s, k)) {
        StandsStill(f, s, k);
      }
    }
  }

  // ---------- what headers announce, and what the code makes of it ----------

  /** The variable data_size: a size_t in the proxy, an int in the replica. */
  datatype Holder = SizeT | Int

  /** A header, and the size it announces for what follows it. */
  datatype Protocol = Protocol(header: nat, announced: seq<Byte> -> uint64, holder: Holder)

  predicate Framed(p: Protocol) {
    0 < p.header < TWO_32
  }

  /** An announced size as the sum sees it: cut to 32 bits and sign-extended when it went through an int. */
  function Held(holder: Holder, size: uint64): uint64 {
    match holder
    case SizeT => size
    case Int => var low := size % TWO_32; if low < 0x8000_0000 then low else low + (WORD - TWO_32)
  }

  /** header size + data_size, in size_t. */
  function CodeSize(p: Protocol, size: uint64): uint64 {
    (p.header + Held(p.holder, size)) % WORD
  }

  /** The frames the code cuts. */
  function Coded(p: Protocol): Format {
    Format(p.header, x => CodeSize(p, p.announced(x)))
  }

  /** The frames the headers announce. */
  function Meant(p: Protocol): Format {
    Format(p.header, x => p.header + p.announced(x))
  }

  predicate IsFrame(p: Protocol, x: seq<Byte>) {
    |x| >= p.header && |x| == p.header + p.announced(x[..p.header])
  }

  /** Every message is exactly one announced frame, what is left is a strict part of one, and the loop ends. */
  lemma {:induction false} ParseFrames(p: Protocol, s: seq<Byte>)
    requires Framed(p)
    ensures var r := Parse(Meant(p), s);
      r.ended && !Complete(Meant(p), r.rest) && forall i :: 0 <= i < |r.frames| ==> IsFrame(p, r.frames[i])
    decreases |s|
  {
    hide IsFrame;
    if Complete(Meant(p), s) {
      ParseFrames(p, s[FrameSize(Meant(p), s)..]);
      FirstFrame(p, s);
    }
  }

  lemma FirstFrame(p: Protocol, s: seq<Byte>)
    requires Complete(Meant(p), s)
    ensures IsFrame(p, s[..FrameSize(Meant(p), s)])
  {
    assert s[..FrameSize(Meant(p), s)][..p.header] == s[..p.header];
  }

  /** The announced size survives: the int keeps its value, and the sum does not wrap. */
  predicate Fits(p: Protocol, size: uint64) {
    && p.header + size < WORD
    && (p.holder.Int? ==> size < 0x8000_0000 || WORD - 0x8000_0000 <= size)
  }

  lemma IntKeeps(size: uint64)
    ensures Held(Int, size) == size <==> size < 0x8000_0000 || WORD - 0x8000_0000 <= size
  {
    var q, low := size / TWO_32, size % TWO_32;
    assert size == q * TWO_32 + low;
    if q == 0 {
    } else if q == TWO_32 - 1 {
      assert q * TWO_32 == WORD - TWO_32;
    } else {
      assert TWO_32 <= q * TWO_32 <= WORD - 2 * TWO_32;
    }
  }

  lemma FitsIsExact(p: Protocol, size: uint64)
    requires Framed(p)
    ensures Fits(p, size) <==> CodeSize(p, size) == p.header + size
    ensures p.holder.SizeT? && !Fits(p, size) ==> CodeSize(p, size) < p.header
  {
    hide Held;
    var held := Held(p.holder, size);
    if p.holder.Int? {
      IntKeeps(size);
    } else {
      assert held == size by { SizeTKeeps(size); }
    }
  }

  /** What the conversion and the sum give, of any size: the conversion through an int keeps the low 32 bits and gives a
      number an int holds, read as a size_t; the sum is the exact one but for a multiple of 2^64. */
  lemma SumMeaning(p: Protocol, size: uint64)
    requires Framed(p)
    ensures p.holder.SizeT? ==> Held(p.holder, size) == size
    ensures p.holder.Int? ==>
      var held := Held(p.holder, size);
      held % TWO_32 == size % TWO_32 && (held < 0x8000_0000 || WORD - 0x8000_0000 <= held)
    ensures var exact, sum := p.header + Held(p.holder, size), CodeSize(p, size);
      sum < WORD && (sum == exact || sum == exact - WORD)
  {
    var low := size % TWO_32;
    assert (low + (TWO_32 - 1) * TWO_32) % TWO_32 == low;
  }

  lemma SizeTKeeps(size: uint64)
    ensures Held(SizeT, size) == size
  {
  }

  /** What a turn makes of a buffer whose header is complete: how much it cuts off, or that it waits. */
  function Turn(f: Format, s: seq<Byte>): Option<nat>
    requires |s| >= f.header
  {
    if Complete(f, s) then Some(FrameSize(f, s)) else None
  }

  /** A turn of the code is the announced one exactly if the size fits, or neither frame is complete
      yet; the proxy never waits for a size that does not fit. */
  lemma TurnAgrees(p: Protocol, s: seq<Byte>)
    requires Framed(p) && |s| >= p.header
    ensures Turn(Coded(p), s) == Turn(Meant(p), s) <==>
      Fits(p, p.announced(s[..p.header])) || (!Complete(Coded(p), s) && !Complete(Meant(p), s))
    ensures p.holder.SizeT? ==>
      (Turn(Coded(p), s) == Turn(Meant(p), s) <==> Fits(p, p.announced(s[..p.header])))
  {
    FitsIsExact(p, p.announced(s[..p.header]));
  }

  /** A header whose size fits, or behind which too little has arrived for either frame. */
  predicate Harmless(p: Protocol, s: seq<Byte>) {
    |s| >= p.header ==>
      Fits(p, p.announced(s[..p.header])) || (!Complete(Coded(p), s) && !Complete(Meant(p), s))
  }

  /** Every header of the announced messages fits, and the header of what is left does no harm yet. */
  predicate AllFit(p: Protocol, r: Parsed) {
    && (forall i :: 0 <= i < |r.frames| && |r.frames[i]| >= p.header ==> Fits(p, p.announced(r.frames[i][..p.header])))
    && Harmless(p, r.rest)
  }

  lemma AllFitFirst(p: Protocol, x: seq<Byte>, later: Parsed)
    requires |x| >= p.header
    ensures AllFit(p, Parsed([x] + later.frames, later.rest, later.ended)) <==>
      Fits(p, p.announced(x[..p.header])) && AllFit(p, later)
  {
    hide Fits, Harmless;
    var all := [x] + later.frames;
    assert all[0] == x;
    assert forall i :: 0 <= i < |later.frames| ==> later.frames[i] == all[i + 1];
  }

  /** The code hands on the announced messages of a stream if and only if every announced size fits;
      the last header, if its message is incomplete, need only be harmless. */
  lemma {:induction false} CodedIsMeant(p: Protocol, s: seq<Byte>)
    requires Framed(p)
    ensures Parse(Coded(p), s) == Parse(Meant(p), s) <==> AllFit(p, Parse(Meant(p), s))
    decreases |s|
  {
    hide Parse, AllFit, Fits;
    ParseTurn(Coded(p), s);
    ParseTurn(Meant(p), s);
    if Complete(Meant(p), s) {
      var n, size := FrameSize(Meant(p), s), p.announced(s[..p.header]);
      FitsIsExact(p, size);
      CodedIsMeant(p, s[n..]);
      assert s[..n][..p.header] == s[..p.header];
      AllFitFirst(p, s[..n], Parse(Meant(p), s[n..]));
      if Fits(p, size) {
        SameFirst(s[..n], Parse(Coded(p), s[n..]), Parse(Meant(p), s[n..]));
      } else {
        OtherFirst(p, s);
      }
    } else {
      WaitingIsMeant(p, s);
    }
  }

  lemma SameFirst(x: seq<Byte>, a: Parsed, b: Parsed)
    ensures Parsed([x] + a.frames, a.rest, a.ended) == Parsed([x] + b.frames, b.rest, b.ended) <==> a == b
  {
    assert ([x] + a.frames)[1..] == a.frames && ([x] + b.frames)[1..] == b.frames;
  }

  /** Where the sizes differ, so do the first messages. */
  lemma OtherFirst(p: Protocol, s: seq<Byte>)
    requires Complete(Meant(p), s) && FrameSize(Coded(p), s) != FrameSize(Meant(p), s)
    requires p.header > 0
    ensures Parse(Coded(p), s) != Parse(Meant(p), s)
  {
    var r, m := Parse(Coded(p), s), Parse(Meant(p), s);
    assert m.frames[0] == s[..FrameSize(Meant(p), s)];
    if r.frames != [] {
      assert |r.frames[0]| == FrameSize(Coded(p), s);
    }
  }

  lemma WaitingIsMeant(p: Protocol, s: seq<Byte>)
    requires Framed(p) && !Complete(Meant(p), s)
    ensures Parse(Coded(p), s) == Parsed([], s, true) <==> AllFit(p, Parsed([], s, true))
  {
    if |s| >= p.header {
      FitsIsExact(p, p.announced(s[..p.header]));
    }
  }

  /** The same over reads: the messages the code has handed on are the announced ones of the whole stream. */
  lemma ReadsAreMeant(p: Protocol, cuts: seq<seq<Byte>>)
    requires Framed(p)
    ensures AfterReads(Coded(p), cuts) == Parse(Meant(p), Flatten(cuts)) <==> AllFit(p, Parse(Meant(p), Flatten(cuts)))
  {
    SegmentationIndependent(Coded(p), cuts);
    CodedIsMeant(p, Flatten(cuts));
  }

  // ---------- three headers that do not fit ----------

  /** client_msg_header and sys_msg_header: four bytes of type, four of padding, and the size, low byte first. */
  function Messages(holder: Holder): Protocol {
    Protocol(16, x => if |x| < 16 then 0 else LowFirst(x[8..16]), holder)
  }

  function LowFirst(x: seq<Byte>): uint64
    requires |x| == 8
  {
    var low := x[0] as int + 0x100 * x[1] as int + 0x1_0000 * x[2] as int + 0x100_0000 * x[3] as int;
    var high := x[4] as int + 0x100 * x[5] as int + 0x1_0000 * x[6] as int + 0x100_0000 * x[7] as int;
    low + TWO_32 * high
  }

  function HeaderOf(size: seq<Byte>): seq<Byte> {
    [0, 0, 0, 0, 0, 0, 0, 0] + size
  }

  /** What code and header make of a buffer that holds a header and nothing else. */
  lemma HeaderAlone(holder: Holder, size: seq<Byte>)
    requires |size| == 8
    ensures var h, p := HeaderOf(size), Messages(holder);
      && |h| == Coded(p).header == Meant(p).header == 16
      && FrameSize(Coded(p), h) == CodeSize(p, LowFirst(size)) && FrameSize(Meant(p), h) == 16 + LowFirst(size)
  {
    hide LowFirst, CodeSize;
    var h := HeaderOf(size);
    assert h[..16] == h && h[8..16] == size;
  }

  lemma Sums(holder: Holder)
    ensures CodeSize(Messages(holder), WORD - 16) == 0 && CodeSize(Messages(holder), WORD - 8) == 8
    ensures CodeSize(Messages(Int), TWO_32) == 16
  {
    assert (WORD - 16) % TWO_32 == TWO_32 - 16 && (WORD - 8) % TWO_32 == TWO_32 - 8;
  }

  /** A size of 2^64 - 16: the sum is 0, and the loop stands still where the announced message would be waited for. */
  lemma StuckHeader(holder: Holder)
    ensures var h := HeaderOf([240, 255, 255, 255, 255, 255, 255, 255]);
      && Parse(Coded(Messages(holder)), h) == Parsed([], h, false)
      && Parse(Meant(Messages(holder)), h) == Parsed([], h, true)
  {
    hide Parse, Coded, Meant, Messages, CodeSize;
    Sums(holder);
    var size: seq<Byte> := [240, 255, 255, 255, 255, 255, 255, 255];
    HeaderAlone(holder, size);
    assert LowFirst(size) == WORD - 16;
    ParseTurn(Coded(Messages(holder)), HeaderOf(size));
    ParseTurn(Meant(Messages(holder)), HeaderOf(size));
  }

  /** A size of 2^64 - 8: the sum is 8, and half of the header is handed on as a message. */
  lemma HalvedHeader(holder: Holder)
    ensures var h := HeaderOf([248, 255, 255, 255, 255, 255, 255, 255]);
      && Parse(Coded(Messages(holder)), h) == Parsed([h[..8]], h[8..], true)
      && Parse(Meant(Messages(holder)), h) == Parsed([], h, true)
  {
    hide Parse, Coded, Meant, Messages, CodeSize;
    Sums(holder);
    var size: seq<Byte> := [248, 255, 255, 255, 255, 255, 255, 255];
    HeaderAlone(holder, size);
    assert LowFirst(size) == WORD - 8;
    ParseTurn(Coded(Messages(holder)), HeaderOf(size));
    ParseTurn(Coded(Messages(holder)), HeaderOf(size)[8..]);
    ParseTurn(Meant(Messages(holder)), HeaderOf(size));
  }

  /** A size of 2^32 is 0 in the replica's int: the header alone is handed on. */
  lemma CutHeader()
    ensures var h := HeaderOf([0, 0, 0, 0, 1, 0, 0, 0]);
      && Parse(Coded(Messages(Int)), h) == Parsed([h], [], true)
      && Parse(Meant(Messages(Int)), h) == Parsed([], h, true)
  {
    hide Parse, Coded, Meant, Messages, CodeSize;
    Sums(Int);
    var size: seq<Byte> := [0, 0, 0, 0, 1, 0, 0, 0];
    HeaderAlone(Int, size);
    assert LowFirst(size) == TWO_32;
    ParseTurn(Coded(Messages(Int)), HeaderOf(size));
    assert HeaderOf(size)[..16] == HeaderOf(size) && HeaderOf(size)[16..] == [];
    ParseTurn(Coded(Messages(Int)), []);
    ParseTurn(Meant(Messages(Int)), HeaderOf(size));
  }

  // ---------- a connection ----------

  /** A connection's input buffer, and the messages given to the message callback. */
  class Connection {
    const protocol: Protocol
    var input: seq<Byte>
    var handed: seq<seq<Byte>>

    constructor (protocol: Protocol)
      ensures this.protocol == protocol && input == [] && handed == []
    {
      this.protocol, input, handed := protocol, [], [];
    }

    /** client_process_data, handle_msg: takes one message out of the buffer. */
    method Process(dataSize: uint64)
      requires (protocol.header + dataSize) % WORD <= |input|
      modifies this`input, this`handed
      ensures var n := (protocol.header + dataSize) % WORD;
        handed == old(handed) + [old(input)[..n]] && input == old(input)[n..]
    {
      var n := (protocol.header + dataSize) % WORD;
      handed := handed + [input[..n]];
      input := input[n..];
    }

    /** A read event: new bytes arrive, then the loop runs; it is called only where it ends (LoopEnds). */
    method OnRead(bytes: seq<Byte>)
      requires Framed(protocol) && Parse(Coded(protocol), input + bytes).ended
      modifies this`input, this`handed
      ensures var p := Parse(Coded(protocol), old(input) + bytes);
        handed == old(handed) + p.frames && input == p.rest
    {
      hide Parse, Held;
      input := input + bytes;
      ghost var f := Coded(protocol);
      ghost var goal, mine: seq<seq<Byte>> := Parse(f, input), [];
      var len := |input|;
      while len >= protocol.header
        invariant len == |input| && handed == old(handed) + mine
        invariant goal == Parsed(mine + Parse(f, input).frames, Parse(f, input).rest, true) && Parse(f, input).ended
        decreases |input|
      {
        ParseTurn(f, input);
        var dataSize := Held(protocol.holder, protocol.announced(input[..protocol.header]));
        if len >= (protocol.header + dataSize) % WORD {
          mine := mine + [input[..(protocol.header + dataSize) % WORD]];
          Process(dataSize);
        } else {
          break;
        }
        len := |input|;
      }
      ParseTurn(f, input);
    }
  }
}
