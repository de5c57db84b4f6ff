/**
 Percent-encoding: url_encode and url_decode of
 client-ld-preload/Mongoose_Aget/mongoose/mongoose.c (section 2.1 of RFC 3986).
 */
module UrlCodec {
  import opened Basics

  const NUL: Byte := 0
  const PERCENT: Byte := 37   // '%'
  const PLUS: Byte := 43      // '+'
  const SPACE: Byte := 32     // ' '

  predicate IsDigit(c: Byte) {
    48 <= c <= 57
  }

  predicate IsAlpha(c: Byte) {
    65 <= c <= 90 || 97 <= c <= 122
  }

  predicate IsXDigit(c: Byte) {
    IsDigit(c) || 65 <= c <= 70 || 97 <= c <= 102
  }

  function ToLower(c: Byte): Byte {
    if 65 <= c <= 90 then c + 32 else c
  }

  /** HEXTOI, of a lower-case digit */
  function HexToI(c: Byte): int {
    if IsDigit(c) then c - 48 else c - 87
  }

  /** "0123456789abcdef"[x] */
  function Hex(x: int): Byte
    requires 0 <= x < 16
  {
    if x < 10 then 48 + x else 87 + x
  }

  /** Letters, digits and "._-$,;~()" stand for themselves. */
  predicate Unescaped(c: Byte) {
    IsAlpha(c) || IsDigit(c) || c in [46, 95, 45, 36, 44, 59, 126, 40, 41]
  }

  predicate NulFree(s: seq<Byte>) {
    forall i :: 0 <= i < |s| ==> s[i] != NUL
  }

  function EncodeByte(c: Byte): (r: seq<Byte>)
    ensures |r| == 1 || |r| == 3
  {
    if Unescaped(c) then [c] else [PERCENT, Hex(c / 16), Hex(c % 16)]
  }

  function Encode(s: seq<Byte>): (r: seq<Byte>)
    ensures |r| <= 3 * |s|
  {
    if s == [] then [] else EncodeByte(s[0]) + Encode(s[1..])
  }

  /** Memory is read at i; past the text there is a terminator. */
  function At(s: seq<Byte>, i: nat): Byte {
    if i < |s| then s[i] else NUL
  }

  predicate Escape(s: seq<Byte>, i: nat) {
    At(s, i) == PERCENT && IsXDigit(At(s, i + 1)) && IsXDigit(At(s, i + 2))
  }

  /** (char) ((HEXTOI(a) << 4) | HEXTOI(b)) */
  function Unhex(a: Byte, b: Byte): Byte
    requires IsXDigit(a) && IsXDigit(b)
  {
    16 * HexToI(ToLower(a)) + HexToI(ToLower(b))
  }

  function DecodeByte(s: seq<Byte>, i: nat, form: bool): Byte {
    if Escape(s, i) then Unhex(At(s, i + 1), At(s, i + 2))
    else if form && At(s, i) == PLUS then SPACE
    else At(s, i)
  }

  /** How many bytes of the text make the next byte. */
  function Width(s: seq<Byte>, i: nat): (w: nat)
    ensures w >= 1
  {
    if Escape(s, i) then 3 else 1
  }

  /** The text from i on, decoded. */
  function Decode(s: seq<Byte>, i: nat, form: bool): (r: seq<Byte>)
    decreases |s| - i
  {
    if i >= |s| then [] else [DecodeByte(s, i, form)] + Decode(s, i + Width(s, i), form)
  }

  /** An encoded byte decodes to the byte; in particular '+', ' ' and '%' are escaped. */
  lemma DecodeEncodedByte(c: Byte, rest: seq<Byte>, form: bool)
    ensures var e := EncodeByte(c) + rest; Width(e, 0) == |EncodeByte(c)| && DecodeByte(e, 0, form) == c
  {
    if !Unescaped(c) {
      var e := EncodeByte(c) + rest;
      assert e[0] == PERCENT && e[1] == Hex(c / 16) && e[2] == Hex(c % 16);
    }
  }

  lemma DecodeTurn(s: seq<Byte>, i: nat, form: bool)
    ensures Decode(s, i, form) ==
      if i >= |s| then [] else [DecodeByte(s, i, form)] + Decode(s, i + Width(s, i), form)
  {
  }

  lemma DecodeFrom(s: seq<Byte>, i: nat, form: bool)
    requires i <= |s|
    ensures Decode(s, i, form) == Decode(s[i..], 0, form)
  {
    DecodeShift(s, i, 0, form);
  }

  lemma SameByte(s: seq<Byte>, i: nat, j: nat, form: bool)
    requires i <= |s|
    ensures DecodeByte(s, i + j, form) == DecodeByte(s[i..], j, form) && Width(s, i + j) == Width(s[i..], j)
  {
    assert At(s, i + j) == At(s[i..], j) && At(s, i + j + 1) == At(s[i..], j + 1) && At(s, i + j + 2) == At(s[i..], j + 2);
  }

  lemma {:induction false} DecodeShift(s: seq<Byte>, i: nat, j: nat, form: bool)
    requires i <= |s|
    ensures Decode(s, i + j, form) == Decode(s[i..], j, form)
    decreases |s| - i - j
  {
    hide Decode, DecodeByte, Width, Escape;
    DecodeTurn(s, i + j, form);
    DecodeTurn(s[i..], j, form);
    if i + j < |s| {
      SameByte(s, i, j, form);
      DecodeShift(s, i, j + Width(s[i..], j), form);
    }
  }

  /** Decoding undoes encoding, in plain and in form mode. */
  lemma {:induction false} RoundTrip(s: seq<Byte>, form: bool)
    ensures Decode(Encode(s), 0, form) == s
  {
    if s != [] {
      hide DecodeByte, Width, EncodeByte;
      var first, rest := EncodeByte(s[0]), Encode(s[1..]);
      DecodeEncodedByte(s[0], rest, form);
      DecodeFrom(first + rest, |first|, form);
      assert (first + rest)[|first|..] == rest;
      RoundTrip(s[1..], form);
    }
  }

  // ---------- what decoding means, said without Decode ----------

  /** The value of a hexadecimal digit of either case; -1 for any other byte. */
  function HexValue(c: Byte): int {
    if '0' as int <= c <= '9' as int then c - '0' as int
    else if 'A' as int <= c <= 'F' as int then c - 'A' as int + 10
    else if 'a' as int <= c <= 'f' as int then c - 'a' as int + 10
    else -1
  }

  /** The text begins with a percent sign and two hexadecimal digits. */
  predicate BeginsWithEscape(text: seq<Byte>) {
    |text| >= 3 && text[0] == '%' as int && HexValue(text[1]) >= 0 && HexValue(text[2]) >= 0
  }

  /** The first w bytes of the text stand for the byte c: an escape for its value; in form mode a plus sign for a
      space; any other byte, a percent sign that begins no escape among them, for itself. */
  predicate StandsFor(text: seq<Byte>, w: nat, c: Byte, form: bool) {
    && text != []
    && if BeginsWithEscape(text) then w == 3 && c == 16 * HexValue(text[1]) + HexValue(text[2])
       else w == 1 && c == if form && text[0] == '+' as int then ' ' as int else text[0]
  }

  /** The text is a spelling of the bytes. */
  ghost predicate Spells(text: seq<Byte>, bytes: seq<Byte>, form: bool) {
    if bytes == [] then text == []
    else exists w: nat :: w <= |text| && StandsFor(text, w, bytes[0], form) && Spells(text[w..], bytes[1..], form)
  }

  lemma HexDigits(c: Byte)
    ensures IsXDigit(c) <==> HexValue(c) >= 0
    ensures IsXDigit(c) ==> HexToI(ToLower(c)) == HexValue(c)
  {
  }

  /** The first byte of a text, as url_decode takes it. */
  lemma FirstStandsFor(text: seq<Byte>, form: bool)
    requires text != []
    ensures Width(text, 0) <= |text| && StandsFor(text, Width(text, 0), DecodeByte(text, 0, form), form)
    ensures forall w: nat, c {:trigger StandsFor(text, w, c, form)} :: StandsFor(text, w, c, form) ==>
      w == Width(text, 0) && c == DecodeByte(text, 0, form)
  {
    hide IsXDigit, HexToI, ToLower, HexValue;
    HexDigits(At(text, 1));
    HexDigits(At(text, 2));
    HexDigits(NUL);
    NoDigit();
  }

  lemma NoDigit()
    ensures HexValue(NUL) == -1
  {
  }

  /** What url_decode makes of a text is exactly what the text spells. */
  lemma {:induction false} DecodeMeaning(text: seq<Byte>, bytes: seq<Byte>, form: bool)
    ensures Decode(text, 0, form) == bytes <==> Spells(text, bytes, form)
    decreases |text|
  {
    hide StandsFor, DecodeByte, Width, Decode;
    DecodeTurn(text, 0, form);
    if text != [] {
      var w := Width(text, 0);
      FirstStandsFor(text, form);
      DecodeFrom(text, w, form);
      if bytes != [] {
        DecodeMeaning(text[w..], bytes[1..], form);
        assert bytes == [bytes[0]] + bytes[1..];
      }
    } else if bytes != [] {
      NothingStandsFor(bytes[0], form);
    }
  }

  lemma NothingStandsFor(c: Byte, form: bool)
    ensures forall w: nat :: !StandsFor([], w, c, form)
  {
  }

  /** The bytes that url_encode leaves as they are. */
  predicate Plain(c: Byte) {
    || 'a' as int <= c <= 'z' as int || 'A' as int <= c <= 'Z' as int || '0' as int <= c <= '9' as int
    || exists i :: 0 <= i < 9 && "._-$,;~()"[i] as int == c
  }

  /** Letters, digits and "._-$,;~()" are left as they are, any other byte becomes its escape in lower case. */
  lemma EncodedByte(c: Byte)
    ensures if Plain(c) then EncodeByte(c) == [c]
      else EncodeByte(c) == ['%' as int, "0123456789abcdef"[c / 16] as int, "0123456789abcdef"[c % 16] as int]
  {
    HexSpelling(c / 16);
    HexSpelling(c % 16);
    PlainSet(c);
  }

  lemma HexSpelling(x: int)
    requires 0 <= x < 16
    ensures Hex(x) == "0123456789abcdef"[x] as int
  {
  }

  lemma PlainSet(c: Byte)
    ensures Plain(c) <==> Unescaped(c)
  {
    var kept := "._-$,;~()";
    assert kept[0] == '.' && kept[1] == '_' && kept[2] == '-' && kept[3] == '$' && kept[4] == ',';
    assert kept[5] == ';' && kept[6] == '~' && kept[7] == '(' && kept[8] == ')';
  }

  /** The first k bytes of the source, and no more, have an encoding of at most `room` bytes. */
  predicate Fits(src: seq<Byte>, k: nat, room: nat) {
    && k <= |src| && |Encode(src[..k])| <= room
    && (k < |src| ==> |Encode(src[..k])| + |EncodeByte(src[k])| > room)
  }

  /** Where url_encode stops: at the end of the source or of the buffer. */
  function Stop(src: seq<Byte>, k: nat, room: nat): int
    requires k <= |src|
  {
    var n := |Encode(src[..k])|;
    if n + (|src| - k) < room then n + (|src| - k) else room
  }

  /** What url_encode makes of a buffer: the encoding of the first k bytes, the longest that fits; from there on
      each byte takes one place, where it is written only if it needs no escape; a terminator; nothing else. */
  predicate EncodedUpTo(src: seq<Byte>, was: seq<Byte>, buf: seq<Byte>, bufLen: nat, k: nat) {
    && 1 <= bufLen <= |was| == |buf| && Fits(src, k, bufLen - 1)
    && var n, stop := |Encode(src[..k])|, Stop(src, k, bufLen - 1);
    && n <= stop && buf[..n] == Encode(src[..k])
    && (forall j :: n <= j < stop ==> buf[j] == if Unescaped(src[k + j - n]) then src[k + j - n] else was[j])
    && buf[stop] == NUL && buf[stop + 1..] == was[stop + 1..]
  }

  ghost predicate Encoded(src: seq<Byte>, was: seq<Byte>, buf: seq<Byte>, bufLen: nat) {
    exists k: nat :: EncodedUpTo(src, was, buf, bufLen, k)
  }

  lemma EncodeFirst(c: Byte, rest: seq<Byte>)
    ensures Encode([c] + rest) == EncodeByte(c) + Encode(rest)
  {
    hide EncodeByte;
    assert ([c] + rest)[1..] == rest;
  }

  lemma EncodeAppendFirst(c: Byte, rest: seq<Byte>, b: seq<Byte>)
    requires Encode(rest + b) == Encode(rest) + Encode(b)
    ensures Encode([c] + rest + b) == Encode([c] + rest) + Encode(b)
  {
    hide Encode, EncodeByte;
    EncodeFirst(c, rest);
    EncodeFirst(c, rest + b);
    assert [c] + rest + b == [c] + (rest + b);
  }

  lemma {:induction false} EncodeAppend(a: seq<Byte>, b: seq<Byte>)
    ensures Encode(a + b) == Encode(a) + Encode(b)
  {
    hide EncodeByte;
    if a == [] {
      assert a + b == b;
    } else {
      EncodeAppend(a[1..], b);
      EncodeAppendFirst(a[0], a[1..], b);
      assert [a[0]] + a[1..] == a;
    }
  }

  lemma EncodeOneMore(src: seq<Byte>, k: nat)
    requires k < |src|
    ensures Encode(src[..k + 1]) == Encode(src[..k]) + EncodeByte(src[k])
  {
    EncodeAppend(src[..k], [src[k]]);
    assert src[..k + 1] == src[..k] + [src[k]];
    assert [src[k]][1..] == [];
  }

  /** The whole source fits exactly if its whole encoding does. */
  lemma FitsWhole(src: seq<Byte>, k: nat, room: nat)
    requires Fits(src, k, room)
    ensures k == |src| <==> |Encode(src)| <= room
  {
    hide Encode, EncodeByte;
    if k == |src| {
      assert src[..k] == src;
    } else {
      EncodeOneMore(src, k);
      EncodeAppend(src[..k + 1], src[k + 1..]);
      assert src == src[..k + 1] + src[k + 1..];
    }
  }

  /** A buffer that can hold the encoding and a terminator gets exactly that. */
  lemma EncodedWhole(src: seq<Byte>, was: seq<Byte>, buf: seq<Byte>, bufLen: nat)
    requires Encoded(src, was, buf, bufLen) && |Encode(src)| < bufLen
    ensures var e := Encode(src); buf == e + [NUL] + was[|e| + 1..]
  {
    hide Encode;
    var k: nat :| EncodedUpTo(src, was, buf, bufLen, k);
    FitsWhole(src, k, bufLen - 1);
    assert src[..k] == src;
    var n := |Encode(src)|;
    assert buf == buf[..n] + [buf[n]] + buf[n + 1..];
  }

  /** Otherwise at most the two places before the terminator hold no part of the encoding. The first of
      them is never written, and there is one exactly if an escape does not fit. */
  lemma EncodedCut(src: seq<Byte>, was: seq<Byte>, buf: seq<Byte>, bufLen: nat, k: nat)
    requires EncodedUpTo(src, was, buf, bufLen, k) && k < |src|
    ensures var n, stop := |Encode(src[..k])|, Stop(src, k, bufLen - 1);
      && stop <= n + 2
      && (n < stop <==> n < bufLen - 1)
      && (n < stop ==> !Unescaped(src[k]) && buf[n] == was[n])
  {
    hide Encode, Unescaped;
  }

  /** What url_decode leaves in a buffer, and what it returns. */
  predicate Decoded(text: seq<Byte>, buf: seq<Byte>, bufLen: nat, form: bool, r: int) {
    var e := Decode(text, 0, form);
    && 1 <= bufLen <= |buf|
    && if |e| < bufLen then r == |e| && buf[..r] == e && buf[r] == NUL
       else r == -1 && buf[..bufLen - 1] == e[..bufLen - 1] && buf[bufLen - 1] == NUL
  }

  /** strlen */
  function StrLen(s: seq<Byte>): (n: nat)
    ensures n <= |s|
  {
    if s == [] || s[0] == NUL then 0 else 1 + StrLen(s[1..])
  }

  lemma {:induction false} StrLenAtNul(s: seq<Byte>, n: nat)
    requires n < |s| && s[n] == NUL && forall i :: 0 <= i < n ==> s[i] != NUL
    ensures StrLen(s) == n
  {
    if n > 0 {
      StrLenAtNul(s[1..], n - 1);
    }
  }

  lemma {:induction false} EncodeIsNulFree(src: seq<Byte>)
    requires NulFree(src)
    ensures NulFree(Encode(src))
  {
    if src != [] {
      var first, rest := EncodeByte(src[0]), Encode(src[1..]);
      EncodeIsNulFree(src[1..]);
      assert NulFree(first);
      assert forall i :: 0 <= i < |first + rest| ==> (first + rest)[i] == if i < |first| then first[i] else rest[i - |first|];
    }
  }

  /** Through both buffers: what url_decode makes of the string url_encode left, in a buffer of three bytes and a
      terminator for each byte, is the source and its length. */
  lemma BufferRoundTrip(
    src: seq<Byte>, was: seq<Byte>, enc: seq<Byte>, encLen: nat, dec: seq<Byte>, decLen: nat, form: bool, r: int)
    requires NulFree(src) && 3 * |src| + 1 <= encLen && |src| < decLen
    requires Encoded(src, was, enc, encLen) && Decoded(enc[..StrLen(enc)], dec, decLen, form, r)
    ensures r == |src| && dec[..r] == src && dec[r] == NUL
  {
    hide Encode, Decode, Encoded, StrLen;
    var e := Encode(src);
    EncodeIsNulFree(src);
    EncodedWhole(src, was, enc, encLen);
    assert enc[..|e|] == e;
    assert forall i :: 0 <= i < |e| ==> enc[i] == enc[..|e|][i];
    StrLenAtNul(enc, |e|);
    RoundTrip(src, form);
  }

  /** The loop of url_encode has read i bytes and stands at d: the first k are encoded, and if there
      are more, the escape of byte k did not fit. */
  predicate Reading(src: seq<Byte>, was: seq<Byte>, buf: seq<Byte>, end: nat, i: nat, d: nat, k: nat) {
    && k <= i <= |src| && d <= end < |was| == |buf|
    && var n := |Encode(src[..k])|;
    && d - n == i - k && buf[..n] == Encode(src[..k]) && buf[d..] == was[d..]
    && (k < i ==> !Unescaped(src[k]) && n + 2 >= end)
    && forall j :: n <= j < d ==> buf[j] == if Unescaped(src[k + j - n]) then src[k + j - n] else was[j]
  }

  /** What one turn of the loop makes of the buffer. */
  function TurnWrites(c: Byte, buf: seq<Byte>, end: nat, d: nat): seq<Byte>
    requires d < end < |buf|
  {
    if Unescaped(c) || d + 2 < end then buf[..d] + EncodeByte(c) + buf[d + |EncodeByte(c)|..] else buf
  }

  function TurnSteps(c: Byte, end: nat, d: nat): nat {
    if !Unescaped(c) && d + 2 < end then 3 else 1
  }

  lemma ReadingOn(src: seq<Byte>, was: seq<Byte>, buf: seq<Byte>, end: nat, i: nat, d: nat, k: nat) returns (k': nat)
    requires Reading(src, was, buf, end, i, d, k) && i < |src| && d < end
    ensures Reading(src, was, TurnWrites(src[i], buf, end, d), end, i + 1, d + TurnSteps(src[i], end, d), k')
  {
    hide Unescaped, Encode, EncodeByte;
    var c, n := src[i], |Encode(src[..k])|;
    var after := TurnWrites(c, buf, end, d);
    EncodeOneMore(src, i);
    EncodedByteIs(c);
    k' := if k == i && (Unescaped(c) || d + 2 < end) then k + 1 else k;
    if k' == k + 1 {
      assert after[..d] == buf[..d];
      assert after[..d + |EncodeByte(c)|] == after[..d] + EncodeByte(c);
    } else {
      assert after[..n] == buf[..n];
    }
  }

  lemma EncodedByteIs(c: Byte)
    ensures |EncodeByte(c)| == if Unescaped(c) then 1 else 3
    ensures Unescaped(c) ==> EncodeByte(c) == [c]
  {
    hide Unescaped;
  }

  lemma ReadingEnds(src: seq<Byte>, was: seq<Byte>, buf: seq<Byte>, end: nat, i: nat, d: nat, k: nat)
    requires Reading(src, was, buf, end, i, d, k) && (i == |src| || d == end)
    ensures EncodedUpTo(src, was, buf[d := NUL], end + 1, k)
  {
    hide Unescaped, Encode, EncodeByte;
    var n, last := |Encode(src[..k])|, buf[d := NUL];
    if k < |src| {
      EncodedByteIs(src[k]);
    }
    assert last[..n] == buf[..n];
    assert last[d + 1..] == was[d..][1..];
  }

  /** url_encode, in whatever buffer. */
  method UrlEncode(src: seq<Byte>, dst: array<Byte>, dstLen: nat)
    requires NulFree(src) && 1 <= dstLen <= dst.Length
    modifies dst
    ensures Encoded(src, old(dst[..]), dst[..], dstLen)
  {
    hide Reading, TurnWrites, TurnSteps, EncodedUpTo;
    ghost var was, k := dst[..], 0;
    var i, d, end := 0, 0, dstLen - 1;
    ReadingStarts(src, was, end);
    while i < |src| && d < end
      invariant i <= |src| && d <= end && Reading(src, was, dst[..], end, i, d, k)
      decreases |src| - i
    {
      k := ReadingOn(src, was, dst[..], end, i, d, k);
      d := EncodeTurn(src[i], dst, end, d);
      i := i + 1;
    }
    ReadingEnds(src, was, dst[..], end, i, d, k);
    ghost var before := dst[..];
    dst[d] := NUL;
    assert dst[..] == before[d := NUL];
  }

  lemma ReadingStarts(src: seq<Byte>, was: seq<Byte>, end: nat)
    requires end < |was|
    ensures Reading(src, was, was, end, 0, 0, 0)
  {
  }

  /** One turn of the loop; where it goes on in the buffer is returned. */
  method EncodeTurn(c: Byte, dst: array<Byte>, end: nat, at: nat) returns (d: nat)
    requires at < end < dst.Length
    modifies dst
    ensures dst[..] == TurnWrites(c, old(dst[..]), end, at) && at < d == at + TurnSteps(c, end, at) <= end
  {
    hide Unescaped;
    d := at;
    if Unescaped(c) {
      dst[d] := c;
    } else if d + 2 < end {
      dst[d] := PERCENT;
      dst[d + 1] := Hex(c / 16);
      dst[d + 2] := Hex(c % 16);
      d := d + 2;
    }
    d := d + 1;
  }

  /** url_decode: everything and its length if the buffer can hold it, else what fits and -1. */
  method UrlDecode(src: seq<Byte>, dst: array<Byte>, dstLen: nat, form: bool) returns (r: int)
    requires 1 <= dstLen <= dst.Length
    modifies dst
    ensures Decoded(src, dst[..], dstLen, form, r)
  {
    hide Unhex, IsXDigit, Decode;
    ghost var whole := Decode(src, 0, form);
    var i, j := 0, 0;
    while i < |src| && j < dstLen - 1
      invariant j <= dstLen - 1
      invariant dst[..j] + Decode(src, i, form) == whole
      decreases |src| - i
    {
      ghost var was := dst[..j];
      DecodeNext(was, src, i, form);
      ghost var b, w := DecodeByte(src, i, form), Width(src, i);
      if src[i] == PERCENT && IsXDigit(At(src, i + 1)) && IsXDigit(At(src, i + 2)) {
        dst[j] := Unhex(At(src, i + 1), At(src, i + 2));
        i := i + 2;
      } else if form && src[i] == PLUS {
        dst[j] := SPACE;
      } else {
        dst[j] := src[i];
      }
      i, j := i + 1, j + 1;
      assert dst[..j] == was + [b];
    }
    DecodeMore(src, i, form);
    dst[j] := NUL;
    r := if i >= |src| then j else -1;
  }

  lemma DecodeNext(before: seq<Byte>, src: seq<Byte>, i: nat, form: bool)
    requires i < |src|
    ensures before + Decode(src, i, form) == before + [DecodeByte(src, i, form)] + Decode(src, i + Width(src, i), form)
  {
    hide DecodeByte, Width;
    DecodeTurn(src, i, form);
  }

  lemma DecodeMore(s: seq<Byte>, i: nat, form: bool)
    ensures |Decode(s, i, form)| == 0 <==> i >= |s|
  {
  }
}
