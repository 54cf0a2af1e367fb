/**
 The DEFLATE format (RFC 1951, section 3.2) as a recursive-descent decoder over a whole
 bit string.  It knows nothing of tables, windows, buffers or interruptions: codes are
 looked up by their definition and matches copy from the entire output so far.

 Where the implementation is more lenient than the RFC, so is this decoder: an empty or
 lone one-bit literal/length or distance code is accepted, and a code length code
 without any codes reads every bit as length zero (src/cmd/INIT/ratz.c:1796-1803,
 3099-3108).
 */
module Deflate {
  import opened Bits
  import opened Huffman
  import opened TableSpec

  /** How a decoding ends: with the final block, which takes a whole number of bytes, for
      want of input, or at an error. */
  datatype Outcome = Done(out: seq<byte>, size: nat) | Short(out: seq<byte>) | Bad(out: seq<byte>)

  datatype Symbol = Sym(s: nat, n: nat) | CutShort | NoCode

  /** The final-block flag and the two codes of a compressed block. */
  datatype Codes = Codes(last: bool, ll: seq<nat>, dl: seq<nat>)

  /** The final-block flag and the three sizes of a dynamic block header. */
  datatype Header = Header(last: bool, nlen: nat, ndist: nat, ncode: nat)

  // ----------------------------------------------------------------- symbols

  /** The code of s stands at pos. */
  ghost predicate CodeHere(lens: seq<nat>, s: nat, b: seq<bool>, pos: nat) {
    s < |lens| && lens[s] > 0 && pos + lens[s] <= |b| && Msb(b, pos, lens[s]) == CodeOf(lens, s)
  }

  /** The input breaks off at pos inside what may be the code of s. */
  ghost predicate CodeBegun(lens: seq<nat>, s: nat, b: seq<bool>, pos: nat)
    requires pos <= |b|
  {
    s < |lens| && lens[s] > |b| - pos && Msb(b, pos, |b| - pos) == High(CodeOf(lens, s), lens[s] - (|b| - pos))
  }

  ghost function DecodeSym(lens: seq<nat>, b: seq<bool>, pos: nat): (r: Symbol)
    requires pos <= |b|
    ensures r.Sym? ==> r.n > 0 && pos + r.n <= |b| && r.s < |lens|
  {
    if exists s: nat :: CodeHere(lens, s, b, pos) then
      var s: nat :| CodeHere(lens, s, b, pos);
      Sym(s, lens[s])
    else if pos == |b| || exists s: nat :: CodeBegun(lens, s, b, pos) then CutShort
    else NoCode
  }

  /** The code length code; without any codes every bit reads as length 0. */
  ghost function LengthSym(cl: seq<nat>, b: seq<bool>, pos: nat): (r: Symbol)
    requires pos <= |b|
    ensures r.Sym? ==> r.n > 0 && pos + r.n <= |b|
  {
    if Empty(cl) then (if pos < |b| then Sym(0, 1) else CutShort) else DecodeSym(cl, b, pos)
  }

  // ------------------------------------------- lengths and distances (3.2.5)

  function LengthExtra(s: nat): nat
    requires 257 <= s <= 285
  {
    if s < 265 || s == 285 then 0 else (s - 261) / 4
  }

  function LengthBase(s: nat): nat
    requires 257 <= s <= 285
  {
    if s == 285 then 258 else if s < 265 then s - 254 else 3 + Shl(4 + (s - 261) % 4, LengthExtra(s))
  }

  function DistExtra(s: nat): nat
    requires s <= 29
  {
    if s < 4 then 0 else s / 2 - 1
  }

  function DistBase(s: nat): nat
    requires s <= 29
  {
    if s < 4 then s + 1 else 1 + Shl(2 + s % 2, DistExtra(s))
  }

  /** Byte-by-byte copying from distance d back, which may overlap what it writes (3.2.3). */
  function LzCopy(out: seq<byte>, d: nat, n: nat): (r: seq<byte>)
    requires 0 < d <= |out|
    ensures |r| == |out| + n && out <= r
    decreases n
  {
    if n == 0 then out else LzCopy(out + [out[|out| - d]], d, n - 1)
  }

  // ------------------------------------------------------ fixed codes (3.2.6)

  function FixedLit(): (r: seq<nat>)
    ensures |r| == 288
  {
    seq(288, i => if i < 144 then 8 else if i < 256 then 9 else if i < 280 then 7 else 8)
  }

  function FixedDist(): (r: seq<nat>)
    ensures |r| == 32
  {
    seq(32, i => 5)
  }

  // --------------------------------------------------- dynamic headers (3.2.7)

  const ORDER: seq<nat> := [16, 17, 18, 0, 8, 7, 9, 6, 10, 5, 11, 4, 12, 3, 13, 2, 14, 1, 15]

  /** Where a symbol stands in the order in which code length code lengths are sent. */
  const PLACE: seq<nat> := [3, 17, 15, 13, 11, 9, 7, 5, 4, 6, 8, 10, 12, 14, 16, 18, 0, 1, 2]

  /** The code length code whose first |acc| lengths were sent as acc. */
  function LengthCode(acc: seq<nat>): (r: seq<nat>)
    ensures |r| == 19
  {
    seq(19, i requires 0 <= i < 19 => if PLACE[i] < |acc| then acc[PLACE[i]] else 0)
  }

  function Repeat(v: nat, n: nat): (r: seq<nat>)
    ensures |r| == n
  {
    seq(n, i => v)
  }

  /** Extra bits and smallest count of the three repeat codes. */
  function RepeatExtra(s: nat): nat { if s == 16 then 2 else if s == 17 then 3 else 7 }
  function RepeatBase(s: nat): nat { if s == 18 then 11 else 3 }

  // ------------------------------------------------------------------- blocks

  /** At a block boundary; last tells whether the block before was the final one. */
  ghost function Blocks(b: seq<bool>, pos: nat, last: bool, out: seq<byte>): (r: Outcome)
    requires pos <= |b|
    ensures out <= r.out
    decreases |b| - pos, 0
  {
    if last then Done(out, (pos + 7) / 8)
    else if pos + 3 > |b| then Short(out)
    else
      var last' := b[pos];
      match Lsb(b, pos + 1, 2)
      case 0 => Stored(b, pos + 3, last', out)
      case 1 => Symbols(b, pos + 3, Codes(last', FixedLit(), FixedDist()), out)
      case 2 => Dynamic(b, pos + 3, last', out)
      case _ => Bad(out)
  }

  /** A stored block: skip to a byte boundary, then LEN and its complement NLEN (3.2.4). */
  ghost function Stored(b: seq<bool>, pos: nat, last: bool, out: seq<byte>): (r: Outcome)
    requires pos <= |b|
    ensures out <= r.out
    decreases |b| - pos, 5
  {
    var p := (pos + 7) / 8 * 8;
    if p + 32 > |b| then Short(out)
    else if Lsb(b, p, 16) != 65535 - Lsb(b, p + 16, 16) then Bad(out)
    else CopyBytes(b, p + 32, Lsb(b, p, 16), last, out)
  }

  ghost function CopyBytes(b: seq<bool>, pos: nat, n: nat, last: bool, out: seq<byte>): (r: Outcome)
    requires pos <= |b|
    ensures out <= r.out
    decreases |b| - pos, 1
  {
    if n == 0 then Blocks(b, pos, last, out)
    else if pos + 8 > |b| then Short(out)
    else CopyBytes(b, pos + 8, n - 1, last, out + [ByteAt(b, pos)])
  }

  function ByteAt(b: seq<bool>, pos: nat): byte
    requires pos + 8 <= |b|
  {
    Pow2Values();
    Lsb(b, pos, 8)
  }

  ghost function Dynamic(b: seq<bool>, pos: nat, last: bool, out: seq<byte>): (r: Outcome)
    requires pos <= |b|
    ensures out <= r.out
    decreases |b| - pos, 5
  {
    if pos + 14 > |b| then Short(out)
    else
      var h := Header(last, Lsb(b, pos, 5) + 257, Lsb(b, pos + 5, 5) + 1, Lsb(b, pos + 10, 4) + 4);
      if h.nlen > 286 || h.ndist > 30 then Bad(out) else CodeLengthCode(b, pos + 14, h, [], out)
  }

  ghost function CodeLengthCode(b: seq<bool>, pos: nat, h: Header, acc: seq<nat>, out: seq<byte>): (r: Outcome)
    requires pos <= |b|
    ensures out <= r.out
    decreases |b| - pos, 4
  {
    if |acc| >= h.ncode then
      if Acceptable(CODES, LengthCode(acc)) then Lengths(b, pos, h, LengthCode(acc), [], out) else Bad(out)
    else if pos + 3 > |b| then Short(out)
    else CodeLengthCode(b, pos + 3, h, acc + [Lsb(b, pos, 3)], out)
  }

  /** The run-length coded lengths of both codes, got being those read so far. */
  ghost function Lengths(b: seq<bool>, pos: nat, h: Header, cl: seq<nat>, got: seq<nat>, out: seq<byte>): (r: Outcome)
    requires pos <= |b|
    ensures out <= r.out
    decreases |b| - pos, 3
  {
    if |got| >= h.nlen + h.ndist then
      var ll, dl := got[..h.nlen], got[h.nlen..];
      if Acceptable(LENS, ll) && Acceptable(DISTS, dl) then Symbols(b, pos, Codes(h.last, ll, dl), out) else Bad(out)
    else
      match LengthSym(cl, b, pos)
      case CutShort => Short(out)
      case NoCode => Bad(out)
      case Sym(s, n) =>
        if s < 16 then Lengths(b, pos + n, h, cl, got + [s], out) else Repeats(b, pos + n, h, cl, got, s, out)
  }

  /** Code 16 repeats the length before it, 17 and 18 repeat zero. */
  ghost function Repeats(b: seq<bool>, pos: nat, h: Header, cl: seq<nat>, got: seq<nat>, s: nat,
                         out: seq<byte>): (r: Outcome)
    requires pos <= |b| && |got| < h.nlen + h.ndist
    ensures out <= r.out
    decreases |b| - pos, 4
  {
    if pos + RepeatExtra(s) > |b| then Short(out)
    else
      var rep := RepeatBase(s) + Lsb(b, pos, RepeatExtra(s));
      if (s == 16 && got == []) || |got| + rep > h.nlen + h.ndist then Bad(out)
      else Lengths(b, pos + RepeatExtra(s), h, cl, got + Repeat(if s == 16 then got[|got| - 1] else 0, rep), out)
  }

  // ------------------------------------------------------- compressed data

  ghost function Symbols(b: seq<bool>, pos: nat, c: Codes, out: seq<byte>): (r: Outcome)
    requires pos <= |b|
    ensures out <= r.out
    decreases |b| - pos, 1
  {
    match DecodeSym(c.ll, b, pos)
    case CutShort => Short(out)
    case NoCode => Bad(out)
    case Sym(s, n) =>
      if s < 256 then Symbols(b, pos + n, c, out + [s])
      else if s == 256 then Blocks(b, pos + n, c.last, out)
      else if s > 285 then Bad(out)
      else LengthBits(b, pos + n, c, LengthBase(s), LengthExtra(s), out)
  }

  ghost function LengthBits(b: seq<bool>, pos: nat, c: Codes, base: nat, extra: nat, out: seq<byte>): (r: Outcome)
    requires pos <= |b|
    ensures out <= r.out
    decreases |b| - pos, 2
  {
    if pos + extra > |b| then Short(out) else Distance(b, pos + extra, c, base + Lsb(b, pos, extra), out)
  }

  ghost function Distance(b: seq<bool>, pos: nat, c: Codes, length: nat, out: seq<byte>): (r: Outcome)
    requires pos <= |b|
    ensures out <= r.out
    decreases |b| - pos, 1
  {
    match DecodeSym(c.dl, b, pos)
    case CutShort => Short(out)
    case NoCode => Bad(out)
    case Sym(s, n) =>
      if s > 29 then Bad(out) else DistanceBits(b, pos + n, c, length, DistBase(s), DistExtra(s), out)
  }

  ghost function DistanceBits(b: seq<bool>, pos: nat, c: Codes, length: nat, base: nat, extra: nat,
                              out: seq<byte>): (r: Outcome)
    requires pos <= |b|
    ensures out <= r.out
    decreases |b| - pos, 2
  {
    if pos + extra > |b| then Short(out)
    else
      var d := base + Lsb(b, pos, extra);
      if d > |out| || d == 0 then Bad(out) else Symbols(b, pos + extra, c, LzCopy(out, d, length))
  }

  /** The decoding of a complete raw DEFLATE stream. */
  ghost function Decode(s: seq<byte>): Outcome {
    Blocks(StreamBits(s), 0, false, [])
  }

  /** The tables of the implementation hold the lengths and distances of section 3.2.5. */
  lemma LengthTable(s: nat)
    requires 257 <= s <= 285
    ensures LBASE[s - 257] == LengthBase(s) && LEXT[s - 257] == 16 + LengthExtra(s)
  {
    ShlSmall(4 + (s - 261) % 4, LengthExtra(s));
    hide Shl;
  }

  lemma {:induction false} DistTable(s: nat)
    requires s <= 29
    ensures DBASE[s] == DistBase(s) && DEXT[s] == 16 + DistExtra(s)
  {
    if s >= 6 {
      hide DistBase, DistExtra, Shl;
      DistTable(s - 2);
      DistDoubles(s);
      TableDoubles(s);
    }
  }

  /** From the fourth on, two codes share a number of extra bits, and the next two have one more. */
  lemma DistDoubles(s: nat)
    requires 6 <= s <= 29
    ensures DistExtra(s) == DistExtra(s - 2) + 1 && DistBase(s) == 2 * DistBase(s - 2) - 1
  {
  }

  lemma TableDoubles(s: nat)
    requires 6 <= s <= 29
    ensures DEXT[s] == DEXT[s - 2] + 1 && DBASE[s] == 2 * DBASE[s - 2] - 1
  {
  }

  lemma ShlSmall(x: nat, n: nat)
    requires n <= 13
    ensures Shl(x, n) == if n == 0 then x else if n == 1 then 2 * x else if n == 2 then 4 * x else if n == 3 then 8 * x
                         else if n == 4 then 16 * x else if n == 5 then 32 * x else if n == 6 then 64 * x
                         else if n == 7 then 128 * x else if n == 8 then 256 * x else if n == 9 then 512 * x
                         else if n == 10 then 1024 * x else if n == 11 then 2048 * x else if n == 12 then 4096 * x
                         else 8192 * x
  {
    if n > 1 {
      ShlSmall(x, n - 1);
    }
  }
}
