/**
 How data is written in the DEFLATE format (RFC 1951, section 3.2): any list of stored, fixed and dynamic
 blocks. The tables and ranges of sections 3.2.5 and 3.2.7 stand here as the RFC prints them.
 */
module Encode {
  import opened Bits
  import opened Huffman

  /** A literal, or a match of that length that far back. A match of 258 bytes can also be written with the
      code below the one that is meant for it. */
  datatype Token = Lit(b: byte) | Match(length: nat, dist: nat) | LongMatch(dist: nat)

  /** Code lengths as they are sent: one, the one before again, or zeros, a few or many. */
  datatype Item = Len(n: nat) | Again(n: nat) | Zeros(n: nat) | ManyZeros(n: nat)

  /** A stored block has bits of any value before its first byte boundary. A dynamic block has the two code
      lengths as items, in the code of cl, of which ncode lengths are sent. */
  datatype Block =
    | Raw(pad: seq<bool>, data: seq<byte>)
    | Fixed(tokens: seq<Token>)
    | Dynamic(nlen: nat, ndist: nat, ncode: nat, cl: seq<nat>, items: seq<Item>, tokens: seq<Token>)

  // The tables of section 3.2.5, for codes from 257 and from 0 on.

  const LENGTHS: seq<nat> := [
    3, 4, 5, 6, 7, 8, 9, 10, 11, 13, 15, 17, 19, 23, 27, 31, 35, 43, 51, 59, 67, 83, 99, 115, 131, 163, 195, 227, 258]
  const LENGTH_BITS: seq<nat> := [
    0, 0, 0, 0, 0, 0, 0, 0, 1, 1, 1, 1, 2, 2, 2, 2, 3, 3, 3, 3, 4, 4, 4, 4, 5, 5, 5, 5, 0]
  const DISTANCES: seq<nat> := [
    1, 2, 3, 4, 5, 7, 9, 13, 17, 25, 33, 49, 65, 97, 129, 193, 257, 385, 513, 769, 1025, 1537, 2049, 3073, 4097, 6145,
    8193, 12289, 16385, 24577]
  const DISTANCE_BITS: seq<nat> := [
    0, 0, 0, 0, 1, 1, 2, 2, 3, 3, 4, 4, 5, 5, 6, 6, 7, 7, 8, 8, 9, 9, 10, 10, 11, 11, 12, 12, 13, 13]

  /** The order of section 3.2.7 in which the lengths of the code length code are sent. */
  const SENT: seq<nat> := [16, 17, 18, 0, 8, 7, 9, 6, 10, 5, 11, 4, 12, 3, 13, 2, 14, 1, 15]

  /** The last base that is not above x. */
  function Slot(bases: seq<nat>, x: nat): (k: nat)
    requires bases != []
    ensures k < |bases|
  {
    var n := |bases| - 1;
    if n == 0 || bases[n] <= x then n else Slot(bases[..n], x)
  }

  // Numbers and codes as bits (section 3.1.1).

  /** A number in n bits, the least significant first. */
  function Num(x: nat, n: nat): (r: seq<bool>)
    ensures |r| == n
  {
    if n == 0 then [] else [x % 2 == 1] + Num(x / 2, n - 1)
  }

  /** A code of n bits, the most significant first. */
  function Code(x: nat, n: nat): (r: seq<bool>)
    ensures |r| == n
  {
    if n == 0 then [] else Code(x / 2, n - 1) + [x % 2 == 1]
  }

  function SymBits(lens: seq<nat>, s: nat): seq<bool> {
    if s < |lens| then Code(CodeOf(lens, s), lens[s]) else []
  }

  function ByteBits(data: seq<byte>): (r: seq<bool>)
    ensures |r| == 8 * |data|
  {
    if data == [] then [] else Num(data[0], 8) + ByteBits(data[1..])
  }

  // Compressed data.

  function LengthBits(ll: seq<nat>, length: nat): seq<bool> {
    var k := Slot(LENGTHS, length);
    SymBits(ll, 257 + k) + Num(if length < LENGTHS[k] then 0 else length - LENGTHS[k], LENGTH_BITS[k])
  }

  function DistBits(dl: seq<nat>, dist: nat): seq<bool> {
    var k := Slot(DISTANCES, dist);
    SymBits(dl, k) + Num(if dist < DISTANCES[k] then 0 else dist - DISTANCES[k], DISTANCE_BITS[k])
  }

  function TokenBits(ll: seq<nat>, dl: seq<nat>, t: Token): seq<bool> {
    match t
    case Lit(b) => SymBits(ll, b)
    case Match(length, dist) => LengthBits(ll, length) + DistBits(dl, dist)
    case LongMatch(dist) => (SymBits(ll, 284) + Num(31, 5)) + DistBits(dl, dist)
  }

  function TokensBits(ll: seq<nat>, dl: seq<nat>, ts: seq<Token>): seq<bool> {
    if ts == [] then [] else TokenBits(ll, dl, ts[0]) + TokensBits(ll, dl, ts[1..])
  }

  /** The tokens and the end of the block. */
  function DataBits(ll: seq<nat>, dl: seq<nat>, ts: seq<Token>): seq<bool> {
    TokensBits(ll, dl, ts) + SymBits(ll, 256)
  }

  // Headers.

  /** The fixed codes of section 3.2.6. */
  function FixedLengths(): seq<nat> {
    seq(288, i => if i <= 143 then 8 else if i <= 255 then 9 else if i <= 279 then 7 else 8)
  }

  function FixedDistances(): seq<nat> {
    seq(32, i => 5)
  }

  function ItemBits(cl: seq<nat>, item: Item): seq<bool> {
    match item
    case Len(n) => SymBits(cl, n)
    case Again(n) => SymBits(cl, 16) + Num(if n < 3 then 0 else n - 3, 2)
    case Zeros(n) => SymBits(cl, 17) + Num(if n < 3 then 0 else n - 3, 3)
    case ManyZeros(n) => SymBits(cl, 18) + Num(if n < 11 then 0 else n - 11, 7)
  }

  function ItemsBits(cl: seq<nat>, items: seq<Item>): seq<bool> {
    if items == [] then [] else ItemBits(cl, items[0]) + ItemsBits(cl, items[1..])
  }

  function Copies(v: nat, n: nat): (r: seq<nat>)
    ensures |r| == n
  {
    if n == 0 then [] else Copies(v, n - 1) + [v]
  }

  /** The code lengths that an item stands for behind those before it. */
  function ItemLengths(got: seq<nat>, item: Item): seq<nat> {
    match item
    case Len(n) => [n]
    case Again(n) => if got == [] then [] else Copies(got[|got| - 1], n)
    case Zeros(n) => Copies(0, n)
    case ManyZeros(n) => Copies(0, n)
  }

  function Unfold(got: seq<nat>, items: seq<Item>): (r: seq<nat>)
    ensures got <= r
    decreases |items|
  {
    if items == [] then got else Unfold(got + ItemLengths(got, items[0]), items[1..])
  }

  /** The first n of the lengths of the code length code, in the order in which they are sent. */
  function SentBits(cl: seq<nat>, n: nat): (r: seq<bool>)
    requires |cl| == 19 && n <= 19
    ensures |r| == 3 * n
  {
    if n == 0 then [] else SentBits(cl, n - 1) + Num(cl[SENT[n - 1]], 3)
  }

  function LitLengths(b: Block): seq<nat>
    requires b.Dynamic?
  {
    var r := Unfold([], b.items);
    if b.nlen <= |r| then r[..b.nlen] else r
  }

  function DistLengths(b: Block): seq<nat>
    requires b.Dynamic?
  {
    var r := Unfold([], b.items);
    if b.nlen <= |r| then r[b.nlen..] else []
  }

  function BlockBits(b: Block, last: bool): seq<bool> {
    match b
    case Raw(pad, data) =>
      [last, false, false] + (pad + (Num(|data|, 16) +
        (Num(if |data| <= 65535 then 65535 - |data| else 0, 16) + ByteBits(data))))
    case Fixed(ts) => [last, true, false] + DataBits(FixedLengths(), FixedDistances(), ts)
    case Dynamic(nlen, ndist, ncode, cl, items, ts) =>
      if nlen < 257 || ndist < 1 || !(4 <= ncode <= 19) || |cl| != 19 then []
      else
        [last, false, true] + (Num(nlen - 257, 5) + (Num(ndist - 1, 5) + (Num(ncode - 4, 4) +
          (SentBits(cl, ncode) + (ItemsBits(cl, items) + DataBits(LitLengths(b), DistLengths(b), ts))))))
  }

  /** A whole stream: the last block is marked. */
  function StreamOf(bs: seq<Block>): seq<bool> {
    if bs == [] then [] else BlockBits(bs[0], |bs| == 1) + StreamOf(bs[1..])
  }

  // What may be written.

  /** The Kraft sum, symbol by symbol. */
  function KraftSum(lens: seq<nat>): nat {
    if lens == [] then 0
    else
      var l := lens[|lens| - 1];
      KraftSum(lens[..|lens| - 1]) + if 0 < l <= 15 then Pow2(15 - l) else 0
  }

  /** The code is complete, or it has a single code of one bit, or none. */
  predicate Usable(lens: seq<nat>) {
    && (forall i :: 0 <= i < |lens| ==> lens[i] <= 15)
    && (KraftSum(lens) == 32768 || (KraftSum(lens) <= 16384 && forall i :: 0 <= i < |lens| ==> lens[i] <= 1))
  }

  predicate Coded(lens: seq<nat>, s: nat) {
    s < |lens| && lens[s] > 0
  }

  /** The token can be written in these codes when that many bytes came before it. */
  predicate TokenOk(n: nat, ll: seq<nat>, dl: seq<nat>, t: Token) {
    match t
    case Lit(b) => Coded(ll, b)
    case Match(length, dist) =>
      && 3 <= length <= 258 && 1 <= dist <= 32768 && dist <= n
      && Coded(ll, 257 + Slot(LENGTHS, length)) && Coded(dl, Slot(DISTANCES, dist))
    case LongMatch(dist) =>
      && 1 <= dist <= 32768 && dist <= n && Coded(ll, 284) && Coded(dl, Slot(DISTANCES, dist))
  }

  function TokenSize(t: Token): nat {
    match t
    case Lit(_) => 1
    case Match(length, _) => length
    case LongMatch(_) => 258
  }

  predicate TokensOk(n: nat, ll: seq<nat>, dl: seq<nat>, ts: seq<Token>)
    decreases |ts|
  {
    ts == [] || (TokenOk(n, ll, dl, ts[0]) && TokensOk(n + TokenSize(ts[0]), ll, dl, ts[1..]))
  }

  predicate ItemOk(cl: seq<nat>, got: seq<nat>, item: Item) {
    match item
    case Len(n) => n <= 15 && Coded(cl, n)
    case Again(n) => 3 <= n <= 6 && got != [] && Coded(cl, 16)
    case Zeros(n) => 3 <= n <= 10 && Coded(cl, 17)
    case ManyZeros(n) => 11 <= n <= 138 && Coded(cl, 18)
  }

  predicate ItemsOk(cl: seq<nat>, got: seq<nat>, items: seq<Item>)
    decreases |items|
  {
    items == [] || (ItemOk(cl, got, items[0]) && ItemsOk(cl, got + ItemLengths(got, items[0]), items[1..]))
  }

  /** The code length code: complete, and zero beyond what is sent of it. */
  predicate LengthCodeOk(cl: seq<nat>, ncode: nat) {
    && |cl| == 19 && 4 <= ncode <= 19 && (forall i :: 0 <= i < 19 ==> cl[i] <= 7) && KraftSum(cl) == 32768
    && forall k :: ncode <= k < 19 ==> cl[SENT[k]] == 0
  }

  /** The block can be written from bit pos on when n bytes came before it. */
  predicate BlockOk(pos: nat, n: nat, b: Block) {
    match b
    case Raw(pad, data) => |pad| < 8 && (pos + 3 + |pad|) % 8 == 0 && |data| <= 65535
    case Fixed(ts) => TokensOk(n, FixedLengths(), FixedDistances(), ts)
    case Dynamic(nlen, ndist, ncode, cl, items, ts) =>
      && 257 <= nlen <= 286 && 1 <= ndist <= 30 && LengthCodeOk(cl, ncode)
      && ItemsOk(cl, [], items) && |Unfold([], items)| == nlen + ndist
      && Usable(LitLengths(b)) && Usable(DistLengths(b)) && Coded(LitLengths(b), 256)
      && TokensOk(n, LitLengths(b), DistLengths(b), ts)
  }

  predicate StreamOk(pos: nat, n: nat, bs: seq<Block>)
    decreases |bs|
  {
    bs == [] || (
      && BlockOk(pos, n, bs[0])
      && StreamOk(pos + |BlockBits(bs[0], |bs| == 1)|, n + BlockSize(bs[0]), bs[1..]))
  }

  function BlockSize(b: Block): nat {
    if b.Raw? then |b.data| else TokensSize(b.tokens)
  }

  function TokensSize(ts: seq<Token>): nat {
    if ts == [] then 0 else TokenSize(ts[0]) + TokensSize(ts[1..])
  }

  // What it stands for.

  /** The last n bytes repeat what is dist before them. */
  function Copied(out: seq<byte>, dist: nat, n: nat): (r: seq<byte>)
    ensures |r| >= |out|
  {
    if n == 0 then out
    else
      var r := Copied(out, dist, n - 1);
      if 0 < dist <= |r| then r + [r[|r| - dist]] else r
  }

  function Played(out: seq<byte>, t: Token): seq<byte> {
    match t
    case Lit(b) => out + [b]
    case Match(length, dist) => Copied(out, dist, length)
    case LongMatch(dist) => Copied(out, dist, 258)
  }

  function PlayAll(out: seq<byte>, ts: seq<Token>): seq<byte>
    decreases |ts|
  {
    if ts == [] then out else PlayAll(Played(out, ts[0]), ts[1..])
  }

  /** The data that a block stands for, behind out. */
  function Behind(out: seq<byte>, b: Block): seq<byte> {
    if b.Raw? then out + b.data else PlayAll(out, b.tokens)
  }

  /** The data that the blocks stand for, behind out. */
  function Expand(out: seq<byte>, bs: seq<Block>): seq<byte>
    decreases |bs|
  {
    if bs == [] then out
    else Expand(Behind(out, bs[0]), bs[1..])
  }

  // Bits packed into bytes.

  function Bit(b: seq<bool>, i: nat): nat {
    if i < |b| && b[i] then 1 else 0
  }

  function PackByte(b: seq<bool>): byte {
    Bit(b, 0) + 2 * Bit(b, 1) + 4 * Bit(b, 2) + 8 * Bit(b, 3) + 16 * Bit(b, 4) + 32 * Bit(b, 5) + 64 * Bit(b, 6)
      + 128 * Bit(b, 7)
  }

  /** Bytes are filled from the lowest bit up; what is left of the last is zero. */
  function Pack(b: seq<bool>): (r: seq<byte>)
    ensures |r| == (|b| + 7) / 8
    decreases |b|
  {
    if b == [] then [] else [PackByte(b)] + Pack(if |b| < 8 then [] else b[8..])
  }
}
