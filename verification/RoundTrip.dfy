/**
 What the decoder of the DEFLATE format decodes is exactly what can be written in it, and it stands for the data
 that was written (RFC 1951, section 3.2).
 */
module RoundTrip {
  import opened Bits
  import opened Huffman
  import opened TableSpec
  import opened Deflate
  import opened Resume
  import opened EncodeSyms
  import opened EncodeSteps
  import opened EncodeHeaders
  import F = Fixed
  import E = Encode

  // Blocks.

  lemma FixedAre()
    ensures E.FixedLengths() == FixedLit() && E.FixedDistances() == FixedDist()
  {
  }

  /** The final mark and the type of a block. */
  lemma KindAt(b: seq<bool>, pos: nat, last: bool, x: bool, y: bool)
    requires At(b, pos, [last, x, y])
    ensures pos + 3 <= |b| && b[pos] == last
    ensures Lsb(b, pos + 1, 2) == (if x then 1 else 0) + if y then 2 else 0
  {
    var w := b[pos..pos + 3];
    assert w[0] == last && w[1] == x && w[2] == y;
    assert Lsb(b, pos + 2, 1) == if y then 1 else 0;
  }

  lemma KindBack(b: seq<bool>, pos: nat)
    requires pos + 3 <= |b|
    ensures At(b, pos, [b[pos], b[pos + 1], b[pos + 2]])
    ensures Lsb(b, pos + 1, 2) == (if b[pos + 1] then 1 else 0) + if b[pos + 2] then 2 else 0
  {
    KindAt(b, pos, b[pos], b[pos + 1], b[pos + 2]);
  }

  // Stored blocks.

  lemma {:induction false} BytesPlay(b: seq<bool>, pos: nat, data: seq<byte>, last: bool, out: seq<byte>)
    requires At(b, pos, E.ByteBits(data))
    ensures var p := pos + 8 * |data|;
      && p <= |b|
      && CopyBytes(b, pos, |data|, last, out) == Blocks(b, p, last, out + data)
    decreases |data|
  {
    hide CopyBytes, Blocks, Lsb, E.Num;
    if data == [] {
      CopyStep(b, pos, 0, last, out);
      assert out + data == out;
    } else {
      Pow2Values();
      AtJoin(b, pos, E.Num(data[0], 8), E.ByteBits(data[1..]));
      NumAt(b, pos, data[0], 8);
      CopyStep(b, pos, |data|, last, out);
      BytesPlay(b, pos + 8, data[1..], last, out + [data[0]]);
      assert out + [data[0]] + data[1..] == out + data;
    }
  }

  lemma {:induction false} BytesRead(b: seq<bool>, pos: nat, n: nat, last: bool, out: seq<byte>)
    returns (data: seq<byte>)
    requires pos <= |b| && CopyBytes(b, pos, n, last, out).Done?
    ensures |data| == n && At(b, pos, E.ByteBits(data))
    decreases n
  {
    hide CopyBytes, Blocks, Lsb, E.Num;
    CopyStep(b, pos, n, last, out);
    if n == 0 {
      data := [];
    } else {
      Pow2Values();
      var x := ByteAt(b, pos);
      NumAt(b, pos, x, 8);
      var rest := BytesRead(b, pos + 8, n - 1, last, out + [x]);
      data := [x] + rest;
      assert data[1..] == rest;
      AtJoin(b, pos, E.Num(x, 8), E.ByteBits(rest));
    }
  }

  function RawBits(data: seq<byte>): seq<bool> {
    E.Num(|data|, 16) + (E.Num(if |data| <= 65535 then 65535 - |data| else 0, 16) + E.ByteBits(data))
  }

  lemma RawPlays(b: seq<bool>, pos: nat, pad: seq<bool>, data: seq<byte>, last: bool, out: seq<byte>)
    requires |pad| < 8 && (pos + |pad|) % 8 == 0 && |data| <= 65535 && At(b, pos, pad + RawBits(data))
    ensures var p := pos + |pad + RawBits(data)|;
      && p <= |b|
      && Stored(b, pos, last, out) == Blocks(b, p, last, out + data)
  {
    hide Stored, CopyBytes, Blocks, Lsb, E.Num;
    Pow2Values();
    var n, p := |data|, pos + |pad|;
    assert (pos + 7) / 8 * 8 == p;
    AtJoin(b, pos, pad, RawBits(data));
    AtJoin(b, p, E.Num(n, 16), E.Num(65535 - n, 16) + E.ByteBits(data));
    AtJoin(b, p + 16, E.Num(65535 - n, 16), E.ByteBits(data));
    NumAt(b, p, n, 16);
    NumAt(b, p + 16, 65535 - n, 16);
    StoredStep(b, pos, last, out, p);
    BytesPlay(b, p + 32, data, last, out);
  }

  lemma RawRead(b: seq<bool>, pos: nat, last: bool, out: seq<byte>) returns (pad: seq<bool>, data: seq<byte>)
    requires pos <= |b| && Stored(b, pos, last, out).Done?
    ensures |pad| < 8 && (pos + |pad|) % 8 == 0 && |data| <= 65535 && At(b, pos, pad + RawBits(data))
  {
    hide CopyBytes, Blocks, Lsb, E.Num;
    Pow2Values();
    var p := (pos + 7) / 8 * 8;
    var n := Lsb(b, p, 16);
    pad := b[pos..p];
    data := BytesRead(b, p + 32, n, last, out);
    NumAt(b, p, n, 16);
    NumAt(b, p + 16, 65535 - n, 16);
    AtJoin(b, p + 16, E.Num(65535 - n, 16), E.ByteBits(data));
    AtJoin(b, p, E.Num(n, 16), E.Num(65535 - n, 16) + E.ByteBits(data));
    AtJoin(b, pos, pad, RawBits(data));
  }

  // Dynamic blocks.

  function HeadBits(nlen: nat, ndist: nat, ncode: nat, rest: seq<bool>): seq<bool>
    requires 257 <= nlen && 1 <= ndist && 4 <= ncode
  {
    E.Num(nlen - 257, 5) + (E.Num(ndist - 1, 5) + (E.Num(ncode - 4, 4) + rest))
  }

  /** The sizes of a dynamic block stand there. */
  lemma HeadAt(b: seq<bool>, pos: nat, nlen: nat, ndist: nat, ncode: nat, rest: seq<bool>)
    requires 257 <= nlen < 289 && 1 <= ndist < 33 && 4 <= ncode < 20
    ensures At(b, pos, HeadBits(nlen, ndist, ncode, rest)) <==>
      && pos + 14 <= |b| && Lsb(b, pos, 5) == nlen - 257 && Lsb(b, pos + 5, 5) == ndist - 1
      && Lsb(b, pos + 10, 4) == ncode - 4 && At(b, pos + 14, rest)
    ensures |HeadBits(nlen, ndist, ncode, rest)| == 14 + |rest|
  {
    hide Lsb, E.Num, At;
    Pow2Values();
    NumAt(b, pos, nlen - 257, 5);
    NumAt(b, pos + 5, ndist - 1, 5);
    NumAt(b, pos + 10, ncode - 4, 4);
    var u := E.Num(ncode - 4, 4) + rest;
    AtJoin(b, pos + 10, E.Num(ncode - 4, 4), rest);
    AtJoin(b, pos + 5, E.Num(ndist - 1, 5), u);
    AtJoin(b, pos, E.Num(nlen - 257, 5), E.Num(ndist - 1, 5) + u);
    AtFits(b, pos + 14, rest);
  }

  lemma AtFits(b: seq<bool>, pos: nat, w: seq<bool>)
    ensures At(b, pos, w) ==> pos + |w| <= |b|
  {
  }

  function DynamicBits(bk: E.Block): seq<bool>
    requires bk.Dynamic? && |bk.cl| == 19 && bk.ncode <= 19
  {
    E.SentBits(bk.cl, bk.ncode) +
      (E.ItemsBits(bk.cl, bk.items) + E.DataBits(E.LitLengths(bk), E.DistLengths(bk), bk.tokens))
  }

  lemma LengthCodeIs(cl: seq<nat>)
    requires |cl| == 19 && forall i :: 0 <= i < 19 ==> cl[i] <= 7
    ensures Acceptable(CODES, cl) <==> E.KraftSum(cl) == 32768 || Empty(cl)
    ensures E.KraftSum(cl) == 32768 ==> EncodeSyms.Sound(cl)
  {
    hide Kraft;
    KraftIs(cl);
    Pow2Values();
  }

  /** The lengths of the codes of the block, as the decoder splits them. */
  lemma SplitIs(bk: E.Block)
    requires bk.Dynamic? && |E.Unfold([], bk.items)| == bk.nlen + bk.ndist
    ensures E.LitLengths(bk) == E.Unfold([], bk.items)[..bk.nlen]
    ensures E.DistLengths(bk) == E.Unfold([], bk.items)[bk.nlen..]
  {
  }

  lemma DynamicPlays(b: seq<bool>, pos: nat, bk: E.Block, last: bool, out: seq<byte>)
    requires bk.Dynamic? && E.BlockOk(pos, |out|, bk)
    requires At(b, pos, HeadBits(bk.nlen, bk.ndist, bk.ncode, DynamicBits(bk)))
    ensures var p := pos + 14 + |DynamicBits(bk)|;
      && p <= |b|
      && Dynamic(b, pos, last, out) == Blocks(b, p, last, E.PlayAll(out, bk.tokens))
  {
    hide Dynamic, CodeLengthCode, Lengths, Symbols, Blocks, Lsb, At, E.SentBits, E.ItemsBits, E.DataBits, E.TokensOk,
      E.ItemsOk, E.Unfold, E.Usable, E.KraftSum, Acceptable, HeadBits, LengthCode, E.LitLengths, E.DistLengths,
      EncodeSyms.Sound;
    var h := Header(last, bk.nlen, bk.ndist, bk.ncode);
    var ll, dl := E.LitLengths(bk), E.DistLengths(bk);
    var sent, items, data := E.SentBits(bk.cl, bk.ncode), E.ItemsBits(bk.cl, bk.items), E.DataBits(ll, dl, bk.tokens);
    HeadAt(b, pos, bk.nlen, bk.ndist, bk.ncode, DynamicBits(bk));
    DynamicStep(b, pos, last, out);
    AtJoin(b, pos + 14, sent, items + data);
    SentPlays(b, pos + 14, h, bk.cl, bk.ncode, out);
    var p := pos + 14 + 3 * bk.ncode;
    CodeLengthStep(b, p, h, Sent(bk.cl, bk.ncode), out);
    SentIs(bk.cl, bk.ncode);
    LengthCodeIs(bk.cl);
    AtJoin(b, p, items, data);
    ItemsPlay(b, p, h, bk.cl, [], bk.items, out);
    LengthsEnd(b, p + |items|, h, bk.cl, E.Unfold([], bk.items), out);
    SplitIs(bk);
    UnfoldValid(bk.cl, [], bk.items);
    CodesUsable(bk);
    DataPlays(b, p + |items|, Codes(last, ll, dl), bk.tokens, out);
  }

  lemma CodesUsable(bk: E.Block)
    requires bk.Dynamic? && ValidLengths(E.Unfold([], bk.items))
    ensures var ll, dl := E.LitLengths(bk), E.DistLengths(bk);
      && ValidLengths(ll) && ValidLengths(dl)
      && (E.Usable(ll) <==> Acceptable(LENS, ll)) && (E.Usable(dl) <==> Acceptable(DISTS, dl))
      && (E.Usable(ll) ==> EncodeSyms.Sound(ll)) && (E.Usable(dl) ==> EncodeSyms.Sound(dl))
  {
    hide E.Usable, Acceptable, E.Unfold, OverSubscribed;
    UsableIs(E.LitLengths(bk));
    UsableIs(E.DistLengths(bk));
  }

  lemma DynamicRead(b: seq<bool>, pos: nat, last: bool, out: seq<byte>) returns (bk: E.Block)
    requires pos <= |b| && Dynamic(b, pos, last, out).Done?
    ensures bk.Dynamic? && E.BlockOk(pos, |out|, bk)
    ensures At(b, pos, HeadBits(bk.nlen, bk.ndist, bk.ncode, DynamicBits(bk)))
  {
    hide Dynamic, CodeLengthCode, Lengths, Symbols, Blocks, Lsb, At, E.SentBits, E.ItemsBits, E.DataBits, E.TokensOk,
      E.ItemsOk, E.Unfold, E.Usable, E.KraftSum, Acceptable, HeadBits, LengthCode, E.LitLengths, E.DistLengths,
      EncodeSyms.Sound, Empty;
    Pow2Values();
    DynamicStep(b, pos, last, out);
    var h := Header(last, Lsb(b, pos, 5) + 257, Lsb(b, pos + 5, 5) + 1, Lsb(b, pos + 10, 4) + 4);
    var start := pos + 14;
    assert At(b, start, E.SentBits(LengthCode([]), 0)) by { NothingSent(b, start); }
    var full := SentRead(b, start, h, [], out);
    var cl, p := LengthCode(full), start + 3 * h.ncode;
    SentBack(full);
    CodeLengthStep(b, p, h, full, out);
    SmallLengths(full);
    LengthCodeIs(cl);
    if Empty(cl) {
      EmptyFails(b, p, h, cl, [], out) by { NoneEmpty(); }
    }
    var items := ItemsRead(b, p, h, cl, [], out);
    var q := p + |E.ItemsBits(cl, items)|;
    ItemsPlay(b, p, h, cl, [], items, out);
    LengthsEnd(b, q, h, cl, E.Unfold([], items), out);
    bk := E.Dynamic(h.nlen, h.ndist, h.ncode, cl, items, []);
    SplitIs(bk);
    UnfoldValid(cl, [], items);
    CodesUsable(bk);
    var ll, dl := E.LitLengths(bk), E.DistLengths(bk);
    var ts := DataRead(b, q, Codes(last, ll, dl), out);
    bk := bk.(tokens := ts);
    SplitIs(bk);
    AtJoin(b, p, E.ItemsBits(cl, items), E.DataBits(ll, dl, ts));
    AtJoin(b, start, E.SentBits(cl, h.ncode), E.ItemsBits(cl, items) + E.DataBits(ll, dl, ts));
    HeadAt(b, pos, h.nlen, h.ndist, h.ncode, DynamicBits(bk));
  }

  lemma NoneEmpty()
    ensures Empty([])
  {
  }

  lemma NothingSent(b: seq<bool>, pos: nat)
    requires pos <= |b|
    ensures At(b, pos, E.SentBits(LengthCode([]), 0))
  {
  }

  lemma SmallLengths(acc: seq<nat>)
    requires forall i :: 0 <= i < |acc| ==> acc[i] <= 7
    ensures forall i :: 0 <= i < 19 ==> LengthCode(acc)[i] <= 7
  {
  }

  // Whole streams.

  lemma FixedSound()
    ensures EncodeSyms.Sound(FixedLit()) && EncodeSyms.Sound(FixedDist()) && E.Coded(FixedLit(), 256)
  {
    F.LenFixOk();
    F.DistFixOk();
    hide TableOk, OverSubscribed;
  }

  /** How blocks are written, by their parts. */
  lemma RawParts(bk: E.Block, last: bool)
    requires bk.Raw?
    ensures E.BlockBits(bk, last) == [last, false, false] + (bk.pad + RawBits(bk.data))
  {
    hide E.Num, E.ByteBits;
  }

  lemma FixedParts(bk: E.Block, last: bool)
    requires bk.Fixed?
    ensures E.BlockBits(bk, last) == [last, true, false] + E.DataBits(FixedLit(), FixedDist(), bk.tokens)
  {
    hide E.DataBits, E.FixedLengths, E.FixedDistances, FixedLit, FixedDist;
    FixedAre();
  }

  lemma DynamicParts(bk: E.Block, last: bool)
    requires bk.Dynamic? && 257 <= bk.nlen && 1 <= bk.ndist && 4 <= bk.ncode <= 19 && |bk.cl| == 19
    ensures E.BlockBits(bk, last) == [last, false, true] + HeadBits(bk.nlen, bk.ndist, bk.ncode, DynamicBits(bk))
  {
    hide E.DataBits, E.SentBits, E.ItemsBits, E.LitLengths, E.DistLengths, E.Num;
  }

  lemma RawBlock(b: seq<bool>, pos: nat, pad: seq<bool>, data: seq<byte>, last: bool, out: seq<byte>)
    requires |pad| < 8 && (pos + 3 + |pad|) % 8 == 0 && |data| <= 65535
    requires At(b, pos, [last, false, false] + (pad + RawBits(data)))
    ensures var p := pos + 3 + |pad + RawBits(data)|;
      && p <= |b|
      && Blocks(b, pos, false, out) == Blocks(b, p, last, out + data)
  {
    hide Blocks, Stored, Dynamic, Symbols, Lsb, At, E.BlockBits, RawBits, E.DataBits, HeadBits, DynamicBits, E.PlayAll,
      E.TokensOk, FixedLit, FixedDist, E.FixedLengths, E.FixedDistances, EncodeSyms.Sound, E.Coded, E.BlockOk;
    AtJoin(b, pos, [last, false, false], pad + RawBits(data));
    KindAt(b, pos, last, false, false);
    BlockStep(b, pos, false, out);
    RawPlays(b, pos + 3, pad, data, last, out);
  }

  lemma FixedBlock(b: seq<bool>, pos: nat, ts: seq<E.Token>, last: bool, out: seq<byte>)
    requires E.TokensOk(|out|, FixedLit(), FixedDist(), ts)
    requires At(b, pos, [last, true, false] + E.DataBits(FixedLit(), FixedDist(), ts))
    ensures var p := pos + 3 + |E.DataBits(FixedLit(), FixedDist(), ts)|;
      && p <= |b|
      && Blocks(b, pos, false, out) == Blocks(b, p, last, E.PlayAll(out, ts))
  {
    hide Blocks, Stored, Dynamic, Symbols, Lsb, At, E.BlockBits, RawBits, E.DataBits, HeadBits, DynamicBits, E.PlayAll,
      E.TokensOk, FixedLit, FixedDist, E.FixedLengths, E.FixedDistances, EncodeSyms.Sound, E.Coded, E.BlockOk;
    FixedSound();
    AtJoin(b, pos, [last, true, false], E.DataBits(FixedLit(), FixedDist(), ts));
    KindAt(b, pos, last, true, false);
    BlockStep(b, pos, false, out);
    DataPlays(b, pos + 3, Codes(last, FixedLit(), FixedDist()), ts, out);
  }

  lemma DynamicOk(bk: E.Block, pos: nat, n: nat)
    requires bk.Dynamic? && E.BlockOk(pos, n, bk)
    ensures E.BlockOk(pos + 3, n, bk) && 257 <= bk.nlen && 1 <= bk.ndist && 4 <= bk.ncode <= 19 && |bk.cl| == 19
  {
    hide E.Usable, E.ItemsOk, E.TokensOk, E.KraftSum, E.LitLengths, E.DistLengths, E.Coded, E.Unfold;
  }

  lemma PlainOk(bk: E.Block, pos: nat, n: nat)
    requires !bk.Dynamic? && E.BlockOk(pos, n, bk)
    ensures bk.Raw? ==> |bk.pad| < 8 && (pos + 3 + |bk.pad|) % 8 == 0 && |bk.data| <= 65535
    ensures bk.Fixed? ==> E.TokensOk(n, FixedLit(), FixedDist(), bk.tokens)
  {
    hide E.TokensOk;
    FixedAre();
  }

  lemma DynamicBlock(b: seq<bool>, pos: nat, bk: E.Block, last: bool, out: seq<byte>)
    requires bk.Dynamic? && E.BlockOk(pos, |out|, bk)
    requires At(b, pos, [last, false, true] + HeadBits(bk.nlen, bk.ndist, bk.ncode, DynamicBits(bk)))
    ensures var p := pos + 3 + |HeadBits(bk.nlen, bk.ndist, bk.ncode, DynamicBits(bk))|;
      && p <= |b|
      && Blocks(b, pos, false, out) == Blocks(b, p, last, E.PlayAll(out, bk.tokens))
  {
    hide Blocks, Stored, Dynamic, Symbols, Lsb, At, HeadBits, DynamicBits, E.PlayAll, E.BlockOk, FixedLit, FixedDist;
    DynamicOk(bk, pos, |out|);
    var w := HeadBits(bk.nlen, bk.ndist, bk.ncode, DynamicBits(bk));
    AtJoin(b, pos, [last, false, true], w);
    KindAt(b, pos, last, false, true);
    BlockStep(b, pos, false, out);
    DynamicPlays(b, pos + 3, bk, last, out);
    HeadSize(bk.nlen, bk.ndist, bk.ncode, DynamicBits(bk));
  }

  /** A block is decoded. */
  lemma BlockPlays(b: seq<bool>, pos: nat, bk: E.Block, last: bool, out: seq<byte>)
    requires E.BlockOk(pos, |out|, bk) && At(b, pos, E.BlockBits(bk, last))
    ensures var p := pos + |E.BlockBits(bk, last)|;
      && p <= |b|
      && Blocks(b, pos, false, out) == Blocks(b, p, last, E.Behind(out, bk))
  {
    hide Blocks, At, E.BlockBits, RawBits, E.DataBits, HeadBits, DynamicBits, E.PlayAll, E.TokensOk, FixedLit,
      FixedDist,
      E.BlockOk;
    if bk.Dynamic? {
      DynamicOk(bk, pos, |out|);
      DynamicParts(bk, last);
      DynamicBlock(b, pos, bk, last, out);
    } else {
      PlainOk(bk, pos, |out|);
      if bk.Raw? {
        RawParts(bk, last);
        RawBlock(b, pos, bk.pad, bk.data, last, out);
      } else {
        FixedParts(bk, last);
        FixedBlock(b, pos, bk.tokens, last, out);
      }
    }
  }

  lemma HeadSize(nlen: nat, ndist: nat, ncode: nat, rest: seq<bool>)
    requires 257 <= nlen && 1 <= ndist && 4 <= ncode
    ensures |HeadBits(nlen, ndist, ncode, rest)| == 14 + |rest|
  {
  }

  /** A block that is decoded to the end of the stream is written. */
  lemma BlockRead(b: seq<bool>, pos: nat, out: seq<byte>) returns (bk: E.Block, last: bool)
    requires pos <= |b| && Blocks(b, pos, false, out).Done?
    ensures E.BlockOk(pos, |out|, bk) && At(b, pos, E.BlockBits(bk, last)) && |E.BlockBits(bk, last)| > 0
  {
    hide Blocks, Stored, Dynamic, Symbols, Lsb, At, E.BlockBits, RawBits, E.DataBits, HeadBits, DynamicBits, E.PlayAll,
      E.TokensOk, FixedLit, FixedDist, E.FixedLengths, E.FixedDistances, EncodeSyms.Sound, E.Coded, E.Usable, E.ItemsOk,
      E.Unfold, E.KraftSum, E.LitLengths, E.DistLengths;
    BlockStep(b, pos, false, out);
    FixedAre();
    FixedSound();
    last := b[pos];
    KindBack(b, pos);
    var x, y := b[pos + 1], b[pos + 2];
    if !x && !y {
      var pad, data := RawRead(b, pos + 3, last, out);
      bk := E.Raw(pad, data);
      RawParts(bk, last);
      AtJoin(b, pos, [last, x, y], pad + RawBits(data));
    } else if x && !y {
      var ts := DataRead(b, pos + 3, Codes(last, FixedLit(), FixedDist()), out);
      bk := E.Fixed(ts);
      FixedParts(bk, last);
      AtJoin(b, pos, [last, x, y], E.DataBits(FixedLit(), FixedDist(), ts));
    } else {
      bk := DynamicRead(b, pos + 3, last, out);
      DynamicParts(bk, last);
      AtJoin(b, pos, [last, x, y], HeadBits(bk.nlen, bk.ndist, bk.ncode, DynamicBits(bk)));
    }
  }

  lemma BehindSize(out: seq<byte>, bk: E.Block, pos: nat)
    requires E.BlockOk(pos, |out|, bk)
    ensures |E.Behind(out, bk)| == |out| + E.BlockSize(bk)
  {
    match bk {
      case Raw(_, _) =>
      case Fixed(ts) => PlayAllSize(out, E.FixedLengths(), E.FixedDistances(), ts);
      case Dynamic(_, _, _, _, _, ts) => PlayAllSize(out, E.LitLengths(bk), E.DistLengths(bk), ts);
    }
  }

  /** A stream is decoded. */
  lemma {:induction false} StreamPlays(b: seq<bool>, pos: nat, bs: seq<E.Block>, out: seq<byte>)
    requires bs != [] && E.StreamOk(pos, |out|, bs) && At(b, pos, E.StreamOf(bs))
    ensures var p := pos + |E.StreamOf(bs)|;
      && p <= |b|
      && Blocks(b, pos, false, out) == Done(E.Expand(out, bs), (p + 7) / 8)
    decreases |bs|
  {
    hide E.BlockOk, E.BlockBits, E.Behind, At, E.BlockSize, Blocks;
    var bk, last, rest := bs[0], |bs| == 1, bs[1..];
    var w := E.BlockBits(bk, last);
    AtJoin(b, pos, w, E.StreamOf(rest));
    BlockPlays(b, pos, bk, last, out);
    BehindSize(out, bk, pos);
    if !last {
      StreamPlays(b, pos + |w|, rest, E.Behind(out, bk));
    } else {
      assert E.StreamOf(bs) == w + [] == w;
      BlockStep(b, pos + |w|, true, E.Behind(out, bk));
    }
  }

  /** A stream that is decoded to its end is written. */
  lemma {:induction false} StreamRead(b: seq<bool>, pos: nat, out: seq<byte>) returns (bs: seq<E.Block>)
    requires pos <= |b| && Blocks(b, pos, false, out).Done?
    ensures bs != [] && E.StreamOk(pos, |out|, bs) && At(b, pos, E.StreamOf(bs))
    decreases |b| - pos
  {
    hide E.BlockOk, E.BlockBits, Blocks, At, E.BlockSize, E.Behind;
    var bk, last := BlockRead(b, pos, out);
    var w := E.BlockBits(bk, last);
    BlockPlays(b, pos, bk, last, out);
    BehindSize(out, bk, pos);
    if last {
      bs := [bk];
      assert E.StreamOf(bs) == w + [] == w;
    } else {
      var rest := StreamRead(b, pos + |w|, E.Behind(out, bk));
      bs := [bk] + rest;
      assert bs[1..] == rest;
      AtJoin(b, pos, w, E.StreamOf(rest));
    }
  }

  /** The stream starts with the blocks, which stand for the data, and take that many bytes. */
  ghost predicate Writes(s: seq<byte>, bs: seq<E.Block>, out: seq<byte>, size: nat) {
    && bs != [] && E.StreamOk(0, 0, bs) && E.StreamOf(bs) <= StreamBits(s)
    && out == E.Expand([], bs) && size == (|E.StreamOf(bs)| + 7) / 8
  }

  lemma AtFront(b: seq<bool>, w: seq<bool>)
    ensures At(b, 0, w) <==> w <= b
  {
  }

  /** A stream is decoded to its end, with that outcome, exactly if it starts with blocks that are written as the
      format says and stand for that data. */
  lemma DecodedIffWritten(s: seq<byte>, out: seq<byte>, size: nat)
    ensures Decode(s) == Done(out, size) <==> exists bs :: Writes(s, bs, out, size)
  {
    hide Blocks, E.StreamOf, E.StreamOk, E.Expand, At, StreamBits;
    var b := StreamBits(s);
    if Decode(s) == Done(out, size) {
      var bs := StreamRead(b, 0, []);
      AtFront(b, E.StreamOf(bs));
      StreamPlays(b, 0, bs, []);
      assert Writes(s, bs, out, size);
    }
    if bs :| Writes(s, bs, out, size) {
      AtFront(b, E.StreamOf(bs));
      StreamPlays(b, 0, bs, []);
    }
  }

  // Bits in bytes.

  lemma {:induction false} LsbBit(b: seq<bool>, pos: nat, n: nat, i: nat)
    requires pos + n <= |b| && i < n
    ensures BitOf(Lsb(b, pos, n), i) == b[pos + i]
    decreases n
  {
    var x := Lsb(b, pos + 1, n - 1);
    assert Lsb(b, pos, n) / 2 == x && (Lsb(b, pos, n) % 2 == 1 <==> b[pos]);
    if i > 0 {
      LsbBit(b, pos + 1, n - 1, i - 1);
    }
  }

  function Padded(b: seq<bool>): (r: seq<bool>)
    ensures |r| == 8
  {
    seq(8, i requires 0 <= i < 8 => i < |b| && b[i])
  }

  lemma PackIs(b: seq<bool>)
    ensures E.PackByte(b) == Lsb(Padded(b), 0, 8)
  {
    var c := Padded(b);
    assert Lsb(c, 4, 4) == E.Bit(c, 4) + 2 * E.Bit(c, 5) + 4 * E.Bit(c, 6) + 8 * E.Bit(c, 7) by {
      assert Lsb(c, 6, 2) == E.Bit(c, 6) + 2 * E.Bit(c, 7);
    }
    assert Lsb(c, 2, 6) == E.Bit(c, 2) + 2 * E.Bit(c, 3) + 4 * Lsb(c, 4, 4);
    assert Lsb(c, 0, 8) == E.Bit(c, 0) + 2 * E.Bit(c, 1) + 4 * Lsb(c, 2, 6);
    assert forall i :: 0 <= i < 8 ==> E.Bit(c, i) == E.Bit(b, i);
  }

  /** The bits of a stream behind its first byte. */
  lemma FirstByte(x: byte, s: seq<byte>)
    ensures forall i :: 0 <= i < 8 ==> StreamBits([x] + s)[i] == BitOf(x, i)
    ensures forall i :: 8 <= i < 8 + 8 * |s| ==> StreamBits([x] + s)[i] == StreamBits(s)[i - 8]
  {
    hide BitOf;
    var t := [x] + s;
    forall i | 8 <= i < 8 + 8 * |s| ensures StreamBits(t)[i] == StreamBits(s)[i - 8] {
      assert i / 8 == (i - 8) / 8 + 1 && i % 8 == (i - 8) % 8;
      assert t[i / 8] == s[(i - 8) / 8];
    }
    forall i | 0 <= i < 8 ensures StreamBits(t)[i] == BitOf(x, i) {
      assert i / 8 == 0 && i % 8 == i;
    }
  }

  lemma {:induction false} PackedAt(b: seq<bool>, i: nat)
    requires i < |b|
    ensures StreamBits(E.Pack(b))[i] == b[i]
    decreases |b|
  {
    hide BitOf, StreamBits, Lsb, E.PackByte;
    var rest := if |b| < 8 then [] else b[8..];
    assert E.Pack(b) == [E.PackByte(b)] + E.Pack(rest);
    FirstByte(E.PackByte(b), E.Pack(rest));
    if i < 8 {
      PackIs(b);
      LsbBit(Padded(b), 0, 8, i);
    } else {
      PackedAt(rest, i - 8);
    }
  }

  /** Whatever is written in the format, and packed into bytes, is decoded as the data it stands for. */
  lemma WriteAndDecode(bs: seq<E.Block>)
    requires bs != [] && E.StreamOk(0, 0, bs)
    ensures Decode(E.Pack(E.StreamOf(bs))) == Done(E.Expand([], bs), |E.Pack(E.StreamOf(bs))|)
  {
    hide E.StreamOf, E.StreamOk, E.Expand, Blocks, StreamBits;
    var w := E.StreamOf(bs);
    var s := E.Pack(w);
    assert w <= StreamBits(s) by { Packed(w); }
    assert Writes(s, bs, E.Expand([], bs), |s|);
    DecodedIffWritten(s, E.Expand([], bs), |s|);
  }

  lemma Packed(w: seq<bool>)
    ensures w <= StreamBits(E.Pack(w))
  {
    hide E.Pack;
    forall i: nat | i < |w| ensures StreamBits(E.Pack(w))[i] == w[i] {
      PackedAt(w, i);
    }
  }

  function Literals(data: seq<byte>): seq<E.Token> {
    if data == [] then [] else [E.Lit(data[0])] + Literals(data[1..])
  }

  lemma {:induction false} LiteralsStand(data: seq<byte>, out: seq<byte>)
    ensures E.TokensOk(|out|, E.FixedLengths(), E.FixedDistances(), Literals(data))
    ensures E.PlayAll(out, Literals(data)) == out + data
    decreases |data|
  {
    if data == [] {
      assert out + data == out;
    } else {
      var ts := Literals(data);
      assert ts[0] == E.Lit(data[0]) && ts[1..] == Literals(data[1..]);
      LiteralsStand(data[1..], out + [data[0]]);
      assert out + [data[0]] + data[1..] == out + data;
    }
  }

  /** All data can be written. */
  lemma AnyData(data: seq<byte>) returns (bs: seq<E.Block>)
    ensures bs != [] && E.StreamOk(0, 0, bs) && E.Expand([], bs) == data
  {
    bs := [E.Fixed(Literals(data))];
    LiteralsStand(data, []);
    assert [] + data == data && bs[1..] == [];
  }
}
