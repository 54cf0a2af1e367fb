/**
 Tokens as they are written are what the decoder plays, and every token that it plays is written so (RFC 1951,
 sections 3.2.3 and 3.2.5).
 */
module EncodeSteps {
  import opened Bits
  import opened Huffman
  import opened TableSpec
  import opened Deflate
  import opened Resume
  import opened EncodeSyms
  import E = Encode

  lemma {:induction false} CopiedIs(out: seq<byte>, dist: nat, n: nat)
    requires 0 < dist <= |out|
    ensures E.Copied(out, dist, n) == LzCopy(out, dist, n)
  {
    if n > 0 {
      CopiedIs(out, dist, n - 1);
      LzSnoc(out, dist, n - 1);
    } else {
      LzNothing(out, dist);
    }
  }

  /** A match by its codes and extra bits. */
  function MatchBits(ll: seq<nat>, dl: seq<nat>, k: nat, x: nat, j: nat, y: nat): seq<bool>
    requires k < 29 && j < 30
  {
    (E.SymBits(ll, 257 + k) + E.Num(x, E.LENGTH_BITS[k])) + (E.SymBits(dl, j) + E.Num(y, E.DISTANCE_BITS[j]))
  }

  predicate MatchOk(ll: seq<nat>, dl: seq<nat>, k: nat, x: nat, j: nat, y: nat) {
    && k < 29 && j < 30 && E.Coded(ll, 257 + k) && E.Coded(dl, j)
    && x < Pow2(E.LENGTH_BITS[k]) && y < Pow2(E.DISTANCE_BITS[j])
  }

  /** The codes and extra bits of a token that is a match. */
  lemma MatchOf(ll: seq<nat>, dl: seq<nat>, n: nat, t: E.Token) returns (k: nat, x: nat, j: nat, y: nat)
    requires E.TokenOk(n, ll, dl, t) && !t.Lit?
    ensures MatchOk(ll, dl, k, x, j, y) && E.TokenBits(ll, dl, t) == MatchBits(ll, dl, k, x, j, y)
    ensures E.TokenSize(t) == E.LENGTHS[k] + x && t.dist == E.DISTANCES[j] + y <= n
  {
    hide E.Slot, E.SymBits, Pow2, E.Num, E.LENGTHS, E.LENGTH_BITS, E.DISTANCES, E.DISTANCE_BITS;
    TablesAscend();
    j := E.Slot(E.DISTANCES, t.dist);
    DistSlot(t.dist);
    y := t.dist - E.DISTANCES[j];
    match t {
      case Match(length, _) =>
        k := E.Slot(E.LENGTHS, length);
        LengthSlot(length);
        x := length - E.LENGTHS[k];
      case LongMatch(_) =>
        k, x := 27, 31;
        Long();
      case Lit(_) =>
    }
  }

  lemma Long()
    ensures |E.LENGTHS| == |E.LENGTH_BITS| == 29 && E.LENGTHS[27] + 31 == 258 && E.LENGTH_BITS[27] == 5 && Pow2(5) == 32
  {
    Pow2Values();
  }

  /** Codes and extra bits of a match are those of a token. */
  lemma TokenFor(ll: seq<nat>, dl: seq<nat>, n: nat, k: nat, x: nat, j: nat, y: nat) returns (t: E.Token)
    requires MatchOk(ll, dl, k, x, j, y) && E.DISTANCES[j] + y <= n
    ensures E.TokenOk(n, ll, dl, t) && !t.Lit? && E.TokenBits(ll, dl, t) == MatchBits(ll, dl, k, x, j, y)
    ensures E.TokenSize(t) == E.LENGTHS[k] + x && t.dist == E.DISTANCES[j] + y
  {
    hide E.Slot, E.SymBits, Pow2, E.Num, E.LENGTHS, E.LENGTH_BITS, E.DISTANCES, E.DISTANCE_BITS;
    TablesAscend();
    Pow2Values();
    Long();
    var length, dist := E.LENGTHS[k] + x, E.DISTANCES[j] + y;
    if j < 29 {
      DistStep(j);
    }
    SlotUnique(E.DISTANCES, dist, j);
    DistSpan(j);
    if k < 28 {
      LengthStep(k);
    }
    LengthSpan(k);
    if k == 27 && x == 31 {
      t := E.LongMatch(dist);
    } else {
      SlotUnique(E.LENGTHS, length, k);
      t := E.Match(length, dist);
    }
  }

  lemma DistSpan(j: nat)
    requires j < 30
    ensures 1 <= E.DISTANCES[j] && E.DISTANCES[j] + Pow2(E.DISTANCE_BITS[j]) <= 32769
  {
    hide E.DISTANCES, E.DISTANCE_BITS;
    TablesAscend();
    Pow2Values();
    if j < 29 {
      DistStep(j);
    }
  }

  lemma LengthSpan(k: nat)
    requires k < 29
    ensures 3 <= E.LENGTHS[k] && E.LENGTHS[k] + Pow2(E.LENGTH_BITS[k]) <= 259
  {
    hide E.LENGTHS, E.LENGTH_BITS;
    TablesAscend();
    Pow2Values();
    if k < 28 {
      LengthStep(k);
    }
  }

  // What the decoder makes of a match.

  function LengthWord(ll: seq<nat>, k: nat, x: nat): seq<bool>
    requires k < 29
  {
    E.SymBits(ll, 257 + k) + E.Num(x, E.LENGTH_BITS[k])
  }

  function DistWord(dl: seq<nat>, j: nat, y: nat): seq<bool>
    requires j < 30
  {
    E.SymBits(dl, j) + E.Num(y, E.DISTANCE_BITS[j])
  }

  /** The decoder at the code and extra bits of a length. */
  lemma LengthPlays(b: seq<bool>, pos: nat, c: Codes, k: nat, x: nat, out: seq<byte>)
    requires EncodeSyms.Sound(c.ll) && k < 29 && E.Coded(c.ll, 257 + k) && x < Pow2(E.LENGTH_BITS[k])
    requires At(b, pos, LengthWord(c.ll, k, x))
    ensures var p := pos + |LengthWord(c.ll, k, x)|;
      p <= |b| && Symbols(b, pos, c, out) == Distance(b, p, c, E.LENGTHS[k] + x, out)
  {
    hide Symbols, DecodeSym, E.SymBits, E.Num, Pow2, LzCopy, Lsb, LengthBits, Distance, DistanceBits, LengthBase,
      Blocks,
      LengthExtra, DistBase, DistExtra, E.LENGTHS, E.LENGTH_BITS, E.DISTANCES, E.DISTANCE_BITS, E.Copied, At,
      ValidLengths, OverSubscribed;
    TablesAscend();
    TablesAre(k);
    var w, n := E.SymBits(c.ll, 257 + k), E.LENGTH_BITS[k];
    AtJoin(b, pos, w, E.Num(x, n));
    SymAt(c.ll, 257 + k, b, pos);
    NumAt(b, pos + |w|, x, n);
    SymbolStep(b, pos, c, out);
    LengthBitsStep(b, pos + |w|, c, E.LENGTHS[k], n, out);
  }

  /** The decoder at the code and extra bits of a distance. */
  lemma DistPlays(b: seq<bool>, pos: nat, c: Codes, length: nat, j: nat, y: nat, out: seq<byte>)
    requires EncodeSyms.Sound(c.dl) && j < 30 && E.Coded(c.dl, j) && y < Pow2(E.DISTANCE_BITS[j])
    requires At(b, pos, DistWord(c.dl, j, y)) && E.DISTANCES[j] + y <= |out|
    ensures var p := pos + |DistWord(c.dl, j, y)|;
      p <= |b| && Distance(b, pos, c, length, out) == Symbols(b, p, c, E.Copied(out, E.DISTANCES[j] + y, length))
  {
    hide Symbols, DecodeSym, E.SymBits, E.Num, Pow2, LzCopy, Lsb, LengthBits, Distance, DistanceBits, LengthBase,
      Blocks,
      LengthExtra, DistBase, DistExtra, E.LENGTHS, E.LENGTH_BITS, E.DISTANCES, E.DISTANCE_BITS, E.Copied, At,
      ValidLengths, OverSubscribed;
    TablesAscend();
    TablesAre(j);
    DistSpan(j);
    var w, n := E.SymBits(c.dl, j), E.DISTANCE_BITS[j];
    AtJoin(b, pos, w, E.Num(y, n));
    SymAt(c.dl, j, b, pos);
    NumAt(b, pos + |w|, y, n);
    DistanceStep(b, pos, c, length, out);
    DistanceBitsStep(b, pos + |w|, c, length, E.DISTANCES[j], n, out);
    CopiedIs(out, E.DISTANCES[j] + y, length);
  }

  /** The decoder at the codes and extra bits of a match. */
  lemma MatchPlays(b: seq<bool>, pos: nat, c: Codes, k: nat, x: nat, j: nat, y: nat, out: seq<byte>)
    requires EncodeSyms.Sound(c.ll) && EncodeSyms.Sound(c.dl) && MatchOk(c.ll, c.dl, k, x, j, y)
    requires At(b, pos, MatchBits(c.ll, c.dl, k, x, j, y)) && E.DISTANCES[j] + y <= |out|
    ensures var w := MatchBits(c.ll, c.dl, k, x, j, y);
      && pos + |w| <= |b|
      && Symbols(b, pos, c, out) == Symbols(b, pos + |w|, c, E.Copied(out, E.DISTANCES[j] + y, E.LENGTHS[k] + x))
  {
    hide Symbols, Distance, LengthWord, DistWord, E.Copied, At, EncodeSyms.Sound, E.LENGTHS, E.DISTANCES, MatchBits,
      E.LENGTH_BITS, E.DISTANCE_BITS, Pow2;
    TablesAscend();
    var u, v := LengthWord(c.ll, k, x), DistWord(c.dl, j, y);
    MatchWords(c.ll, c.dl, k, x, j, y);
    AtJoin(b, pos, u, v);
    LengthPlays(b, pos, c, k, x, out);
    DistPlays(b, pos + |u|, c, E.LENGTHS[k] + x, j, y, out);
  }

  lemma MatchWords(ll: seq<nat>, dl: seq<nat>, k: nat, x: nat, j: nat, y: nat)
    requires k < 29 && j < 30
    ensures MatchBits(ll, dl, k, x, j, y) == LengthWord(ll, k, x) + DistWord(dl, j, y)
  {
  }

  lemma LitPlays(b: seq<bool>, pos: nat, c: Codes, lit: byte, out: seq<byte>)
    requires EncodeSyms.Sound(c.ll) && E.Coded(c.ll, lit) && At(b, pos, E.SymBits(c.ll, lit))
    ensures pos + |E.SymBits(c.ll, lit)| <= |b|
    ensures Symbols(b, pos, c, out) == Symbols(b, pos + |E.SymBits(c.ll, lit)|, c, out + [lit])
  {
    hide Symbols, DecodeSym, E.SymBits, ValidLengths, OverSubscribed, Blocks, LengthBits, LengthBase, LengthExtra;
    SymAt(c.ll, lit, b, pos);
    SymbolStep(b, pos, c, out);
    LiteralStep(b, pos + c.ll[lit], c, lit, out);
  }

  /** A token is played. */
  lemma TokenPlays(b: seq<bool>, pos: nat, c: Codes, t: E.Token, out: seq<byte>)
    requires EncodeSyms.Sound(c.ll) && EncodeSyms.Sound(c.dl) && E.TokenOk(|out|, c.ll, c.dl, t)
    requires At(b, pos, E.TokenBits(c.ll, c.dl, t))
    ensures pos + |E.TokenBits(c.ll, c.dl, t)| <= |b|
    ensures Symbols(b, pos, c, out) == Symbols(b, pos + |E.TokenBits(c.ll, c.dl, t)|, c, E.Played(out, t))
  {
    hide Symbols, E.SymBits, E.Copied, MatchBits, E.LENGTHS, E.DISTANCES, MatchOk, EncodeSyms.Sound, At, E.LengthBits,
      E.DistBits, E.Slot;
    if t.Lit? {
      LitPlays(b, pos, c, t.b, out);
    } else {
      var k, x, j, y := MatchOf(c.ll, c.dl, |out|, t);
      MatchPlays(b, pos, c, k, x, j, y, out);
    }
  }

  /** The tokens and the end of a block are played. */
  lemma {:induction false} DataPlays(b: seq<bool>, pos: nat, c: Codes, ts: seq<E.Token>, out: seq<byte>)
    requires EncodeSyms.Sound(c.ll) && EncodeSyms.Sound(c.dl) && E.TokensOk(|out|, c.ll, c.dl, ts)
    requires E.Coded(c.ll, 256) && At(b, pos, E.DataBits(c.ll, c.dl, ts))
    ensures var p := pos + |E.DataBits(c.ll, c.dl, ts)|;
      p <= |b| && Symbols(b, pos, c, out) == Blocks(b, p, c.last, E.PlayAll(out, ts))
    decreases |ts|
  {
    hide Symbols, Blocks, DecodeSym, E.SymBits, E.TokenBits, E.TokenOk, E.Played, At;
    if ts == [] {
      assert E.DataBits(c.ll, c.dl, ts) == E.SymBits(c.ll, 256);
      SymAt(c.ll, 256, b, pos);
      SymbolStep(b, pos, c, out);
    } else {
      var w, rest := E.TokenBits(c.ll, c.dl, ts[0]), E.DataBits(c.ll, c.dl, ts[1..]);
      assert E.DataBits(c.ll, c.dl, ts) == w + rest;
      AtJoin(b, pos, w, rest);
      TokenPlays(b, pos, c, ts[0], out);
      PlayedSize(out, c.ll, c.dl, ts[0]);
      DataPlays(b, pos + |w|, c, ts[1..], E.Played(out, ts[0]));
    }
  }

  lemma {:induction false} CopiedSize(out: seq<byte>, dist: nat, n: nat)
    requires 0 < dist <= |out|
    ensures |E.Copied(out, dist, n)| == |out| + n
  {
    if n > 0 {
      CopiedSize(out, dist, n - 1);
    }
  }

  lemma PlayedSize(out: seq<byte>, ll: seq<nat>, dl: seq<nat>, t: E.Token)
    requires E.TokenOk(|out|, ll, dl, t)
    ensures |E.Played(out, t)| == |out| + E.TokenSize(t)
  {
    hide E.Slot, E.Copied;
    if !t.Lit? {
      CopiedSize(out, t.dist, E.TokenSize(t));
    }
  }

  lemma {:induction false} PlayAllSize(out: seq<byte>, ll: seq<nat>, dl: seq<nat>, ts: seq<E.Token>)
    requires E.TokensOk(|out|, ll, dl, ts)
    ensures |E.PlayAll(out, ts)| == |out| + E.TokensSize(ts)
    decreases |ts|
  {
    hide E.TokenOk, E.Played, E.TokenSize;
    if ts != [] {
      PlayedSize(out, ll, dl, ts[0]);
      PlayAllSize(E.Played(out, ts[0]), ll, dl, ts[1..]);
    }
  }

  // What the decoder plays is written.

  /** The code and extra bits of a length that the decoder reads. */
  lemma LengthRead(b: seq<bool>, pos: nat, c: Codes, out: seq<byte>) returns (k: nat, x: nat)
    requires EncodeSyms.Sound(c.ll) && pos <= |b|
    requires DecodeSym(c.ll, b, pos).Sym? && DecodeSym(c.ll, b, pos).s > 256 && Symbols(b, pos, c, out).Done?
    ensures k < 29 && E.Coded(c.ll, 257 + k) && x < Pow2(E.LENGTH_BITS[k]) && At(b, pos, LengthWord(c.ll, k, x))
  {
    hide Symbols, DecodeSym, E.SymBits, E.Num, Pow2, LzCopy, Lsb, LengthBits, Distance, DistanceBits, LengthBase,
      Blocks,
      LengthExtra, DistBase, DistExtra, E.LENGTHS, E.LENGTH_BITS, E.DISTANCES, E.DISTANCE_BITS, E.Copied, At,
      ValidLengths, OverSubscribed;
    TablesAscend();
    var s := DecodeSym(c.ll, b, pos);
    SymbolStep(b, pos, c, out);
    SymBack(c.ll, b, pos);
    SymAt(c.ll, s.s, b, pos);
    k := s.s - 257;
    TablesAre(k);
    var n := E.LENGTH_BITS[k];
    LengthBitsStep(b, pos + s.n, c, E.LENGTHS[k], n, out);
    x := Lsb(b, pos + s.n, n);
    NumAt(b, pos + s.n, x, n);
    AtJoin(b, pos, E.SymBits(c.ll, 257 + k), E.Num(x, n));
  }

  /** The code and extra bits of a distance that the decoder reads. */
  lemma DistRead(b: seq<bool>, pos: nat, c: Codes, length: nat, out: seq<byte>) returns (j: nat, y: nat)
    requires EncodeSyms.Sound(c.dl) && pos <= |b| && Distance(b, pos, c, length, out).Done?
    ensures j < 30 && E.Coded(c.dl, j) && y < Pow2(E.DISTANCE_BITS[j]) && At(b, pos, DistWord(c.dl, j, y))
    ensures E.DISTANCES[j] + y <= |out|
  {
    hide Symbols, DecodeSym, E.SymBits, E.Num, Pow2, LzCopy, Lsb, LengthBits, Distance, DistanceBits, LengthBase,
      Blocks,
      LengthExtra, DistBase, DistExtra, E.LENGTHS, E.LENGTH_BITS, E.DISTANCES, E.DISTANCE_BITS, E.Copied, At,
      ValidLengths, OverSubscribed;
    TablesAscend();
    var s := DecodeSym(c.dl, b, pos);
    DistanceStep(b, pos, c, length, out);
    SymBack(c.dl, b, pos);
    SymAt(c.dl, s.s, b, pos);
    j := s.s;
    TablesAre(j);
    var n := E.DISTANCE_BITS[j];
    DistanceBitsStep(b, pos + s.n, c, length, E.DISTANCES[j], n, out);
    y := Lsb(b, pos + s.n, n);
    NumAt(b, pos + s.n, y, n);
    AtJoin(b, pos, E.SymBits(c.dl, j), E.Num(y, n));
  }

  /** The codes and extra bits of a match that the decoder reads to the end of the stream. */
  lemma MatchRead(b: seq<bool>, pos: nat, c: Codes, out: seq<byte>) returns (k: nat, x: nat, j: nat, y: nat)
    requires EncodeSyms.Sound(c.ll) && EncodeSyms.Sound(c.dl) && pos <= |b|
    requires DecodeSym(c.ll, b, pos).Sym? && DecodeSym(c.ll, b, pos).s > 256 && Symbols(b, pos, c, out).Done?
    ensures MatchOk(c.ll, c.dl, k, x, j, y) && At(b, pos, MatchBits(c.ll, c.dl, k, x, j, y))
    ensures E.DISTANCES[j] + y <= |out|
  {
    hide Symbols, DecodeSym, Distance, LengthWord, DistWord, At, EncodeSyms.Sound, E.LENGTHS, E.DISTANCES, MatchBits,
      E.LENGTH_BITS, E.DISTANCE_BITS, Pow2;
    TablesAscend();
    k, x := LengthRead(b, pos, c, out);
    LengthPlays(b, pos, c, k, x, out);
    var p := pos + |LengthWord(c.ll, k, x)|;
    j, y := DistRead(b, p, c, E.LENGTHS[k] + x, out);
    MatchWords(c.ll, c.dl, k, x, j, y);
    AtJoin(b, pos, LengthWord(c.ll, k, x), DistWord(c.dl, j, y));
  }

  /** Compressed data that the decoder reads to the end of the stream is written as tokens. */
  lemma {:induction false} DataRead(b: seq<bool>, pos: nat, c: Codes, out: seq<byte>) returns (ts: seq<E.Token>)
    requires EncodeSyms.Sound(c.ll) && EncodeSyms.Sound(c.dl) && pos <= |b| && Symbols(b, pos, c, out).Done?
    ensures E.TokensOk(|out|, c.ll, c.dl, ts) && E.Coded(c.ll, 256) && At(b, pos, E.DataBits(c.ll, c.dl, ts))
    decreases |b| - pos
  {
    hide Symbols, Blocks, DecodeSym, E.SymBits, E.TokenBits, E.TokenOk, E.Played, At, MatchOk, MatchBits;
    var s := DecodeSym(c.ll, b, pos);
    SymbolStep(b, pos, c, out);
    SymBack(c.ll, b, pos);
    if s.s == 256 {
      ts := [];
      assert E.DataBits(c.ll, c.dl, ts) == E.SymBits(c.ll, 256);
    } else {
      var t := TokenRead(b, pos, c, out);
      var w := E.TokenBits(c.ll, c.dl, t);
      TokenPlays(b, pos, c, t, out);
      PlayedSize(out, c.ll, c.dl, t);
      var rest := DataRead(b, pos + |w|, c, E.Played(out, t));
      ts := [t] + rest;
      assert ts[1..] == rest;
      assert E.DataBits(c.ll, c.dl, ts) == w + E.DataBits(c.ll, c.dl, rest);
      AtJoin(b, pos, w, E.DataBits(c.ll, c.dl, rest));
    }
  }

  lemma TokenRead(b: seq<bool>, pos: nat, c: Codes, out: seq<byte>) returns (t: E.Token)
    requires EncodeSyms.Sound(c.ll) && EncodeSyms.Sound(c.dl) && pos <= |b| && Symbols(b, pos, c, out).Done?
    requires DecodeSym(c.ll, b, pos).Sym? && DecodeSym(c.ll, b, pos).s != 256
    ensures E.TokenOk(|out|, c.ll, c.dl, t) && At(b, pos, E.TokenBits(c.ll, c.dl, t))
    ensures |E.TokenBits(c.ll, c.dl, t)| > 0
  {
    hide Symbols, DecodeSym, E.SymBits, E.Slot, MatchBits, MatchOk, At;
    var s := DecodeSym(c.ll, b, pos);
    SymBack(c.ll, b, pos);
    SymAt(c.ll, s.s, b, pos);
    if s.s < 256 {
      t := E.Lit(s.s);
    } else {
      var k, x, j, y := MatchRead(b, pos, c, out);
      t := TokenFor(c.ll, c.dl, |out|, k, x, j, y);
      MatchLong(c.ll, c.dl, k, x, j, y);
    }
  }

  lemma MatchLong(ll: seq<nat>, dl: seq<nat>, k: nat, x: nat, j: nat, y: nat)
    requires MatchOk(ll, dl, k, x, j, y)
    ensures |MatchBits(ll, dl, k, x, j, y)| > 0
  {
    hide CodeOf;
  }
}
