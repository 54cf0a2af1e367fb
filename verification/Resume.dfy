/**
 Where a decoding can be interrupted, and what remains to be decoded from there.  Each
 point is the spot inside the decoder of module Deflate that a mode of inflate stands for;
 each lemma follows that decoder for one step.
 */
module Resume {
  import opened Bits
  import opened Huffman
  import opened TableSpec
  import opened Deflate

  datatype Point =
    | AtBlock(last: bool)
    | AtStored(last: bool)
    | AtCopy(last: bool, n: nat)
    | AtDynamic(last: bool)
    | AtCodeLengthCode(h: Header, acc: seq<nat>)
    | AtLengths(h: Header, cl: seq<nat>, got: seq<nat>)
    | AtSymbol(c: Codes)
    | AtLengthBits(c: Codes, base: nat, extra: nat)
    | AtDistance(c: Codes, length: nat)
    | AtDistanceBits(c: Codes, length: nat, base: nat, extra: nat)
    | AtMatch(c: Codes, dist: nat, length: nat)
    | AtLiteral(c: Codes, lit: nat)
    | AtDone
    | AtBad

  /** The outcome of decoding on from a point, at bit pos, with out already produced. */
  ghost function Rest(p: Point, b: seq<bool>, pos: nat, out: seq<byte>): (r: Outcome)
    requires pos <= |b|
    ensures out <= r.out
  {
    match p
    case AtBlock(last) => Blocks(b, pos, last, out)
    case AtStored(last) => Stored(b, pos, last, out)
    case AtCopy(last, n) => CopyBytes(b, pos, n, last, out)
    case AtDynamic(last) => Dynamic(b, pos, last, out)
    case AtCodeLengthCode(h, acc) => CodeLengthCode(b, pos, h, acc, out)
    case AtLengths(h, cl, got) => Lengths(b, pos, h, cl, got, out)
    case AtSymbol(c) => Symbols(b, pos, c, out)
    case AtLengthBits(c, base, extra) => LengthBits(b, pos, c, base, extra, out)
    case AtDistance(c, length) => Distance(b, pos, c, length, out)
    case AtDistanceBits(c, length, base, extra) => DistanceBits(b, pos, c, length, base, extra, out)
    case AtMatch(c, dist, length) =>
      if 0 < dist <= |out| then Symbols(b, pos, c, LzCopy(out, dist, length)) else Bad(out)
    case AtLiteral(c, lit) => if lit < 256 then Symbols(b, pos, c, out + [lit]) else Bad(out)
    case AtDone => Done(out, (pos + 7) / 8)
    case AtBad => Bad(out)
  }

  lemma BlockStep(b: seq<bool>, pos: nat, last: bool, out: seq<byte>)
    requires pos <= |b|
    ensures last ==> Rest(AtBlock(last), b, pos, out) == Rest(AtDone, b, pos, out)
    ensures !last && pos + 3 > |b| ==> Rest(AtBlock(last), b, pos, out) == Short(out)
    ensures !last && pos + 3 <= |b| ==>
              var kind := Lsb(b, pos + 1, 2);
              Rest(AtBlock(last), b, pos, out) ==
              Rest(if kind == 0 then AtStored(b[pos])
                   else if kind == 1 then AtSymbol(Codes(b[pos], FixedLit(), FixedDist()))
                   else if kind == 2 then AtDynamic(b[pos])
                   else AtBad, b, pos + 3, out)
  {
    hide Stored, Symbols, Dynamic, Lsb;
  }

  /** Rounding up to a byte boundary loses nothing at the end of the data. */
  lemma DoneStep(b: seq<bool>, pos: nat, out: seq<byte>, p: nat)
    requires pos <= p <= |b| && (p + 7) / 8 == (pos + 7) / 8
    ensures Rest(AtDone, b, pos, out) == Rest(AtDone, b, p, out)
  {
  }

  lemma StoredStep(b: seq<bool>, pos: nat, last: bool, out: seq<byte>, p: nat)
    requires pos <= p <= |b| && p == (pos + 7) / 8 * 8
    ensures Rest(AtStored(last), b, p, out) == Rest(AtStored(last), b, pos, out)
    ensures p + 32 > |b| ==> Rest(AtStored(last), b, pos, out) == Short(out)
    ensures p + 32 <= |b| ==>
              Rest(AtStored(last), b, pos, out) ==
              Rest(if Lsb(b, p, 16) != 65535 - Lsb(b, p + 16, 16) then AtBad
                else AtCopy(last, Lsb(b, p, 16)), b, p + 32, out)
  {
    hide CopyBytes, Lsb;
    assert (p + 7) / 8 * 8 == p;
  }

  lemma CopyStep(b: seq<bool>, pos: nat, n: nat, last: bool, out: seq<byte>)
    requires pos <= |b|
    ensures n == 0 ==> Rest(AtCopy(last, n), b, pos, out) == Rest(AtBlock(last), b, pos, out)
    ensures n > 0 && pos + 8 > |b| ==> Rest(AtCopy(last, n), b, pos, out) == Short(out)
    ensures n > 0 && pos + 8 <= |b| ==>
              Rest(AtCopy(last, n), b, pos, out) == Rest(AtCopy(last, n - 1), b, pos + 8, out + [ByteAt(b, pos)])
  {
    hide Blocks, ByteAt;
  }

  lemma DynamicStep(b: seq<bool>, pos: nat, last: bool, out: seq<byte>)
    requires pos <= |b|
    ensures pos + 14 > |b| ==> Rest(AtDynamic(last), b, pos, out) == Short(out)
    ensures pos + 14 <= |b| ==>
              var h := Header(last, Lsb(b, pos, 5) + 257, Lsb(b, pos + 5, 5) + 1, Lsb(b, pos + 10, 4) + 4);
              Rest(AtDynamic(last), b, pos, out) ==
              Rest(if h.nlen > 286 || h.ndist > 30 then AtBad else AtCodeLengthCode(h, []), b, pos + 14, out)
  {
    hide CodeLengthCode, Lsb;
  }

  lemma CodeLengthStep(b: seq<bool>, pos: nat, h: Header, acc: seq<nat>, out: seq<byte>)
    requires pos <= |b|
    ensures |acc| >= h.ncode ==>
              Rest(AtCodeLengthCode(h, acc), b, pos, out) ==
              Rest(if Acceptable(CODES, LengthCode(acc)) then AtLengths(h, LengthCode(acc), []) else AtBad, b, pos, out)
    ensures |acc| < h.ncode && pos + 3 > |b| ==> Rest(AtCodeLengthCode(h, acc), b, pos, out) == Short(out)
    ensures |acc| < h.ncode && pos + 3 <= |b| ==>
              Rest(AtCodeLengthCode(h, acc), b, pos, out) ==
              Rest(AtCodeLengthCode(h, acc + [Lsb(b, pos, 3)]), b, pos + 3, out)
  {
    hide Lengths, Lsb, Acceptable, LengthCode;
  }

  lemma LengthsEnd(b: seq<bool>, pos: nat, h: Header, cl: seq<nat>, got: seq<nat>, out: seq<byte>)
    requires pos <= |b| && |got| == h.nlen + h.ndist
    ensures Rest(AtLengths(h, cl, got), b, pos, out) ==
            Rest(if Acceptable(LENS, got[..h.nlen]) && Acceptable(DISTS, got[h.nlen..])
                 then AtSymbol(Codes(h.last, got[..h.nlen], got[h.nlen..])) else AtBad, b, pos, out)
  {
    hide Symbols, Acceptable, LengthSym;
  }

  lemma LengthsStep(b: seq<bool>, pos: nat, h: Header, cl: seq<nat>, got: seq<nat>, out: seq<byte>)
    requires pos <= |b| && |got| < h.nlen + h.ndist
    ensures var r := LengthSym(cl, b, pos);
            Rest(AtLengths(h, cl, got), b, pos, out) ==
            if r.CutShort? then Short(out)
            else if r.NoCode? then Bad(out)
            else if r.s < 16 then Rest(AtLengths(h, cl, got + [r.s]), b, pos + r.n, out)
            else Repeats(b, pos + r.n, h, cl, got, r.s, out)
  {
    hide Symbols, Acceptable, LengthSym, Repeats;
  }

  lemma RepeatStep(b: seq<bool>, pos: nat, h: Header, cl: seq<nat>, got: seq<nat>, s: nat, out: seq<byte>)
    requires pos <= |b| && |got| < h.nlen + h.ndist
    ensures pos + RepeatExtra(s) > |b| ==> Repeats(b, pos, h, cl, got, s, out) == Short(out)
    ensures pos + RepeatExtra(s) <= |b| ==>
              var rep := RepeatBase(s) + Lsb(b, pos, RepeatExtra(s));
              Repeats(b, pos, h, cl, got, s, out) ==
              Rest(if (s == 16 && got == []) || |got| + rep > h.nlen + h.ndist then AtBad
                   else AtLengths(h, cl, got + Repeat(if s == 16 then got[|got| - 1] else 0, rep)),
                   b, pos + RepeatExtra(s), out)
  {
    hide Lengths, Lsb, Repeat, RepeatExtra, RepeatBase;
  }

  lemma SymbolStep(b: seq<bool>, pos: nat, c: Codes, out: seq<byte>)
    requires pos <= |b|
    ensures var r := DecodeSym(c.ll, b, pos);
            Rest(AtSymbol(c), b, pos, out) ==
            if r.CutShort? then Short(out)
            else if r.NoCode? then Bad(out)
            else Rest(if r.s < 256 then AtLiteral(c, r.s)
                      else if r.s == 256 then AtBlock(c.last)
                      else if r.s > 285 then AtBad
                      else AtLengthBits(c, LengthBase(r.s), LengthExtra(r.s)), b, pos + r.n, out)
  {
    hide Blocks, DecodeSym, LengthBits, LengthBase, LengthExtra;
  }

  lemma LiteralStep(b: seq<bool>, pos: nat, c: Codes, lit: byte, out: seq<byte>)
    requires pos <= |b|
    ensures Rest(AtLiteral(c, lit), b, pos, out) == Rest(AtSymbol(c), b, pos, out + [lit])
  {
    hide Symbols;
  }

  lemma LengthBitsStep(b: seq<bool>, pos: nat, c: Codes, base: nat, extra: nat, out: seq<byte>)
    requires pos <= |b|
    ensures pos + extra > |b| ==> Rest(AtLengthBits(c, base, extra), b, pos, out) == Short(out)
    ensures pos + extra <= |b| ==>
              Rest(AtLengthBits(c, base, extra), b, pos, out) ==
              Rest(AtDistance(c, base + Lsb(b, pos, extra)), b, pos + extra, out)
  {
    hide Distance, Lsb;
  }

  lemma DistanceStep(b: seq<bool>, pos: nat, c: Codes, length: nat, out: seq<byte>)
    requires pos <= |b|
    ensures var r := DecodeSym(c.dl, b, pos);
            Rest(AtDistance(c, length), b, pos, out) ==
            if r.CutShort? then Short(out)
            else if r.NoCode? || r.s > 29 then Bad(out)
            else Rest(AtDistanceBits(c, length, DistBase(r.s), DistExtra(r.s)), b, pos + r.n, out)
  {
    hide DecodeSym, DistanceBits, DistBase, DistExtra;
  }

  lemma DistanceBitsStep(b: seq<bool>, pos: nat, c: Codes, length: nat, base: nat, extra: nat, out: seq<byte>)
    requires pos <= |b|
    ensures pos + extra > |b| ==> Rest(AtDistanceBits(c, length, base, extra), b, pos, out) == Short(out)
    ensures pos + extra <= |b| ==>
              var d := base + Lsb(b, pos, extra);
              Rest(AtDistanceBits(c, length, base, extra), b, pos, out) ==
              Rest(if 0 < d <= |out| then AtMatch(c, d, length) else AtBad, b, pos + extra, out)
  {
    hide Symbols, Lsb, LzCopy;
  }

  /** A match may be copied in pieces. */
  lemma MatchStep(b: seq<bool>, pos: nat, c: Codes, d: nat, length: nat, out: seq<byte>, n: nat)
    requires pos <= |b| && 0 < d <= |out| && n <= length
    ensures Rest(AtMatch(c, d, length), b, pos, out) ==
            Rest(if n == length then AtSymbol(c) else AtMatch(c, d, length - n), b, pos, LzCopy(out, d, n))
  {
    hide Symbols, LzCopy;
    LzSplit(out, d, n, length - n);
    LzNothing(LzCopy(out, d, n), d);
  }

  lemma BadStep(b: seq<bool>, pos: nat, p: nat, out: seq<byte>)
    requires pos <= |b| && p <= |b|
    ensures Rest(AtBad, b, pos, out) == Rest(AtBad, b, p, out) == Bad(out)
  {
  }

  // ------------------------------------------------------------- copied matches

  lemma LzNothing(out: seq<byte>, d: nat)
    requires 0 < d <= |out|
    ensures LzCopy(out, d, 0) == out
  {
  }

  /** Copying n + 1 bytes is copying n and then the byte at the same distance. */
  lemma {:induction false} LzSnoc(out: seq<byte>, d: nat, n: nat)
    requires 0 < d <= |out|
    ensures var r := LzCopy(out, d, n); LzCopy(out, d, n + 1) == r + [r[|r| - d]]
    decreases n
  {
    if n > 0 {
      LzSnoc(out + [out[|out| - d]], d, n - 1);
    } else {
      var next := out + [out[|out| - d]];
      assert LzCopy(next, d, 0) == next;
    }
  }

  /** A match may be copied in pieces. */
  lemma {:induction false} LzSplit(out: seq<byte>, d: nat, m: nat, n: nat)
    requires 0 < d <= |out|
    ensures LzCopy(LzCopy(out, d, m), d, n) == LzCopy(out, d, m + n)
    decreases m
  {
    if m > 0 {
      LzSplit(out + [out[|out| - d]], d, m - 1, n);
    }
  }

  /** What a match copies: every new byte repeats the one d before it. */
  lemma {:induction false} LzPeriodic(out: seq<byte>, d: nat, n: nat, i: nat)
    requires 0 < d <= |out| && i < n
    ensures var r := LzCopy(out, d, n); r[..|out|] == out && r[|out| + i] == r[|out| + i - d]
    decreases n
  {
    var next := out + [out[|out| - d]];
    if i > 0 {
      LzPeriodic(next, d, n - 1, i - 1);
    }
    assert LzCopy(out, d, n) == LzCopy(next, d, n - 1);
    var r := LzCopy(out, d, n);
    assert r[..|next|] == next;
    assert r[|out|] == next[|out|] && r[|out| - d] == next[|out| - d];
  }
}
