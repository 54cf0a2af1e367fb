/**
 Reading compressed data: the modes LEN, LENEXT, DIST and DISTEXT of inflate, which check
 for input byte by byte (src/cmd/INIT/ratz.c:3126-3246), and their unchecked counterparts
 in inflate_fast (2112-2196).
 */
module SymbolSteps {
  import opened Bits
  import opened Huffman
  import opened TableSpec
  import opened Deflate
  import opened Lookup
  import opened Resume
  import opened BitReader
  import opened Steps
  import Window

  const WSIZE := Window.WSIZE

  // The tests that the C code makes on the op field of an entry.
  predicate IsBase(op: nat) { (op / 16) % 2 == 1 }
  predicate IsEnd(op: nat) { (op / 32) % 2 == 1 }
  predicate IsInvalid(op: nat) { (op / 64) % 2 == 1 }

  /** The lengths that a base and its extra bits can make. */
  ghost predicate LengthRange(base: nat, extra: nat) {
    extra <= 5 && 3 <= base && base + Pow2(extra) <= 259
  }

  /** The distances that a base and its extra bits can make. */
  ghost predicate DistRange(base: nat, extra: nat) {
    extra <= 13 && 1 <= base && base + Pow2(extra) <= WSIZE + 1
  }

  lemma InLengthRange(base: nat, extra: nat, v: nat)
    requires LengthRange(base, extra) && v < Pow2(extra)
    ensures 3 <= base + v <= 258
  {
    hide Pow2;
  }

  lemma InDistRange(base: nat, extra: nat, v: nat)
    requires DistRange(base, extra) && v < Pow2(extra)
    ensures 1 <= base + v <= WSIZE
  {
    hide Pow2;
  }

  /** What a literal/length entry leads to. */
  function AfterLen(c: Codes, e: Entry): Point {
    if e.op == 0 then AtLiteral(c, e.val)
    else if IsEnd(e.op) then AtBlock(c.last)
    else if IsInvalid(e.op) then AtBad
    else AtLengthBits(c, e.val, e.op % 16)
  }

  /** What a distance entry leads to. */
  function AfterDist(c: Codes, length: nat, e: Entry): Point {
    if IsInvalid(e.op) then AtBad else AtDistanceBits(c, length, e.val, e.op % 16)
  }

  /** The op field of a leaf tells what kind of symbol it stands for. */
  ghost predicate LenEntryOk(e: Entry) {
    && (e.op == 0 ==> e.val < 256)
    && (IsBase(e.op) <==> e.op != 0 && !IsEnd(e.op) && !IsInvalid(e.op))
    && (IsBase(e.op) ==> LengthRange(e.val, e.op % 16))
    && (e.op == 0 || e.op >= 16)
  }

  ghost predicate DistEntryOk(e: Entry) {
    && (IsBase(e.op) <==> !IsInvalid(e.op))
    && (IsBase(e.op) ==> DistRange(e.val, e.op % 16))
    && e.op >= 16
  }

  lemma LengthsFit(s: nat)
    requires 257 <= s <= 285
    ensures LengthRange(LBASE[s - 257], LEXT[s - 257] - 16) && 16 <= LEXT[s - 257] <= 21
  {
    Pow2Values();
    hide Pow2;
  }

  lemma DistancesFit(s: nat)
    requires s <= 29
    ensures DistRange(DBASE[s], DEXT[s] - 16) && 16 <= DEXT[s] <= 29
  {
    Pow2Values();
    hide Pow2;
  }

  lemma LenMeans(c: Codes, e: Entry, s: nat)
    requires s < Limit(LENS) && Means(LENS, e, s)
    ensures LenEntryOk(e)
    ensures AfterLen(c, e) == if s < 256 then AtLiteral(c, s)
                              else if s == 256 then AtBlock(c.last)
                              else if s > 285 then AtBad
                              else AtLengthBits(c, LengthBase(s), LengthExtra(s))
  {
    hide LengthBase, LengthExtra, LengthRange;
    if 257 <= s <= 285 {
      LengthTable(s);
      LengthsFit(s);
      hide LenEntryOk, AfterLen;
      LenBaseMeans(c, e, s);
    }
  }

  lemma LenBaseMeans(c: Codes, e: Entry, s: nat)
    requires 257 <= s <= 285 && 16 <= e.op == 16 + LengthExtra(s) <= 21 && e.val == LengthBase(s)
    requires LengthRange(e.val, e.op - 16)
    ensures LenEntryOk(e) && AfterLen(c, e) == AtLengthBits(c, LengthBase(s), LengthExtra(s))
  {
    hide LengthBase, LengthExtra, LengthRange;
  }

  lemma DistMeans(c: Codes, length: nat, e: Entry, s: nat)
    requires s < Limit(DISTS) && Means(DISTS, e, s)
    ensures DistEntryOk(e)
    ensures AfterDist(c, length, e) == if s > 29 then AtBad else AtDistanceBits(c, length, DistBase(s), DistExtra(s))
  {
    hide DistBase, DistExtra, DistRange;
    if s <= 29 {
      DistTable(s);
      DistancesFit(s);
    }
  }

  /** A fetched literal/length entry says how the decoding goes on. */
  lemma LenStep(c: Codes, e: Entry, n: nat, b: seq<bool>, pos: nat, h: seq<byte>)
    requires pos + n <= |b| && Fetched(LENS, c.ll, e, n, b, pos)
    ensures LenEntryOk(e) && Rest(AtSymbol(c), b, pos, h) == Rest(AfterLen(c, e), b, pos + n, h)
  {
    hide Rest, Means, DecodeSym, LenEntryOk, AfterLen, LengthBase, LengthExtra;
    SymbolStep(b, pos, c, h);
    var r := DecodeSym(c.ll, b, pos);
    if r.Sym? {
      LenMeans(c, e, r.s);
      BadStep(b, pos, pos + n, h);
    } else {
      InvalidLen(c);
      BadStep(b, pos, pos + n, h);
    }
  }

  lemma InvalidLen(c: Codes)
    ensures LenEntryOk(INVALID) && AfterLen(c, INVALID) == AtBad
  {
  }

  lemma DistStep(c: Codes, length: nat, e: Entry, n: nat, b: seq<bool>, pos: nat, h: seq<byte>)
    requires pos + n <= |b| && Fetched(DISTS, c.dl, e, n, b, pos)
    ensures DistEntryOk(e) && Rest(AtDistance(c, length), b, pos, h) == Rest(AfterDist(c, length, e), b, pos + n, h)
  {
    hide Rest, Means, DecodeSym, DistEntryOk, AfterDist, DistBase, DistExtra;
    DistanceStep(b, pos, c, length, h);
    var r := DecodeSym(c.dl, b, pos);
    BadStep(b, pos, pos + n, h);
    if r.Sym? {
      DistMeans(c, length, e, r.s);
    } else {
      InvalidDist(c, length);
    }
  }

  lemma InvalidDist(c: Codes, length: nat)
    ensures DistEntryOk(INVALID) && AfterDist(c, length, INVALID) == AtBad
  {
  }

  // ------------------------------------------------------------ checked reading

  /** The code of the next symbol may be partly read. */
  predicate Awaits(tab: seq<Entry>, root: nat, r: Reg) {
    r.bits < 8 || Needs(tab, root, r.hold) > r.bits
  }

  method ReadSymbol(ghost b: seq<bool>, input: seq<byte>, ghost fed: nat, r: Reg, ghost c: Codes,
                    tab: seq<Entry>, root: nat, ghost h: seq<byte>)
    returns (ok: bool, e: Entry, r': Reg)
    requires Stands(b, input, fed, r, AtSymbol(c), h) && GoodTable(LENS, c.ll, tab, root) && Awaits(tab, root, r)
    ensures ok ==> LenEntryOk(e) && Stands(b, input, fed, r', AfterLen(c, e), h) && r'.bits < 8
    ensures ok ==> Avail(input, r') < Avail(input, r)
    ensures !ok ==> Stands(b, input, fed, r', AtSymbol(c), h) && Starved(b, input, fed, r', h) && Awaits(tab, root, r')
    ensures !ok ==> Avail(input, r') == Avail(input, r)
  {
    hide Rest, Goal, Reads, Stands, Starved, GoodTable, Needs, Fetched, DecodeSym, LenEntryOk, AfterLen;
    StandsBounds(b, input, fed, r, AtSymbol(c), h);
    ghost var n;
    ok, e, n, r' := FetchSym(LENS, c.ll, tab, root, b, input, fed, r);
    Bounds(b, input, fed, r');
    if ok {
      LenStep(c, e, n, b, Pos(fed, r), h);
      Go(b, input, fed, r, r', AtSymbol(c), AfterLen(c, e), h, n);
    } else {
      Stay(b, input, fed, r, r', AtSymbol(c), h);
      SymbolStep(b, Pos(fed, r), c, h);
      CutOffHere(b, input, fed, r', AtSymbol(c), h);
    }
  }

  lemma CutOffHere(b: seq<bool>, input: seq<byte>, fed: nat, r: Reg, p: Point, h: seq<byte>)
    requires Stands(b, input, fed, r, p, h) && r.next == |input|
    requires 8 * (fed + |input|) == |b| ==> Rest(p, b, Pos(fed, r), h) == Short(h)
    ensures Starved(b, input, fed, r, h)
  {
    hide Rest, Goal;
  }

  method ReadDistance(ghost b: seq<bool>, input: seq<byte>, ghost fed: nat, r: Reg, ghost c: Codes, ghost length: nat,
                      tab: seq<Entry>, root: nat, ghost h: seq<byte>)
    returns (ok: bool, e: Entry, r': Reg)
    requires Stands(b, input, fed, r, AtDistance(c, length), h) && GoodTable(DISTS, c.dl, tab, root)
      && Awaits(tab, root, r)
    ensures ok ==> DistEntryOk(e) && Stands(b, input, fed, r', AfterDist(c, length, e), h) && r'.bits < 8
    ensures ok ==> Avail(input, r') < Avail(input, r)
    ensures !ok ==>
      Stands(b, input, fed, r', AtDistance(c, length), h) && Starved(b, input, fed, r', h) && Awaits(tab, root, r')
    ensures !ok ==> Avail(input, r') == Avail(input, r)
  {
    hide Rest, Goal, Reads, Stands, Starved, GoodTable, Needs, Fetched, DecodeSym, DistEntryOk, AfterDist;
    ghost var p := AtDistance(c, length);
    StandsBounds(b, input, fed, r, p, h);
    ghost var n;
    ok, e, n, r' := FetchSym(DISTS, c.dl, tab, root, b, input, fed, r);
    Bounds(b, input, fed, r');
    if ok {
      DistStep(c, length, e, n, b, Pos(fed, r), h);
      Go(b, input, fed, r, r', p, AfterDist(c, length, e), h, n);
    } else {
      Stay(b, input, fed, r, r', p, h);
      DistanceStep(b, Pos(fed, r), c, length, h);
      CutOffHere(b, input, fed, r', p, h);
    }
  }

  /** The point that v extra bits lead to; d is the distance they would make. */
  function AfterExtra(p: Point, v: nat, size: nat): Point {
    match p
    case AtLengthBits(c, base, extra) => AtDistance(c, base + v)
    case AtDistanceBits(c, length, base, extra) =>
      if 0 < base + v <= size then AtMatch(c, base + v, length) else AtBad
    case _ => p
  }

  predicate WantsExtra(p: Point, n: nat) {
    (p.AtLengthBits? || p.AtDistanceBits?) && p.extra == n
  }

  lemma ExtraStep(b: seq<bool>, pos: nat, p: Point, n: nat, h: seq<byte>)
    requires pos <= |b| && WantsExtra(p, n)
    ensures pos + n > |b| ==> Rest(p, b, pos, h) == Short(h)
    ensures pos + n <= |b| ==> Rest(p, b, pos, h) == Rest(AfterExtra(p, Lsb(b, pos, n), |h|), b, pos + n, h)
  {
    hide Rest, Lsb;
    if p.AtLengthBits? {
      LengthBitsStep(b, pos, p.c, p.base, p.extra, h);
    } else {
      DistanceBitsStep(b, pos, p.c, p.length, p.base, p.extra, h);
    }
  }

  /** The extra bits of LENEXT and DISTEXT. */
  method ReadExtra(ghost b: seq<bool>, input: seq<byte>, ghost fed: nat, r: Reg, ghost p: Point, n: nat,
                   ghost h: seq<byte>)
    returns (ok: bool, v: nat, r': Reg)
    requires Stands(b, input, fed, r, p, h) && WantsExtra(p, n) && n <= 13 && (r.bits < 8 || r.bits < n)
    ensures ok ==> Stands(b, input, fed, r', AfterExtra(p, v, |h|), h) && v < Pow2(n) && r'.bits < 8
    ensures Avail(input, r') == Avail(input, r) - if ok then n else 0
    ensures !ok ==> Stands(b, input, fed, r', p, h) && Starved(b, input, fed, r', h) && r'.bits < n
  {
    hide Rest, Goal, Reads, Stands, Starved, AfterExtra, Lsb, Pow2;
    StandsBounds(b, input, fed, r, p, h);
    ExtraStep(b, Pos(fed, r), p, n, h);
    v := 0;
    ok, r' := NeedBits(b, input, fed, r, n);
    Stay(b, input, fed, r, r', p, h);
    StandsBounds(b, input, fed, r', p, h);
    if !ok {
      Ends(b, input, fed, r', p, h, n);
      return;
    }
    v, r' := TakeBits(b, input, fed, r', n);
    Go(b, input, fed, r, r', p, AfterExtra(p, v, |h|), h, n);
  }

  // ---------------------------------------------------------- unchecked reading

  /** One byte, without looking whether there is one. */
  method Pull(ghost b: seq<bool>, input: seq<byte>, ghost fed: nat, r: Reg) returns (r': Reg)
    requires Reads(b, input, fed, r) && r.bits <= 24 && r.next < |input|
    ensures Reads(b, input, fed, r') && SamePlace(input, fed, r, r')
    ensures r'.next == r.next + 1 && r'.bits == r.bits + 8
  {
    hide Reads;
    var ok;
    ok, r' := PullByte(b, input, fed, r);
  }

  /** Two bytes if a code may need them. */
  method Refill(ghost b: seq<bool>, input: seq<byte>, ghost fed: nat, r: Reg) returns (r': Reg)
    requires Reads(b, input, fed, r) && (r.bits < 15 ==> r.next + 2 <= |input|)
    ensures Reads(b, input, fed, r') && SamePlace(input, fed, r, r')
    ensures 15 <= r'.bits && (r' == r || r.bits < r'.bits <= 30)
  {
    hide Reads;
    r' := r;
    if r.bits < 15 {
      r' := Pull(b, input, fed, r');
      r' := Pull(b, input, fed, r');
    }
  }

  /** The lookups of inflate_fast: a link leads back to the same tests. */
  method FastSymbol(ghost kind: Kind, ghost sl: seq<nat>, tab: seq<Entry>, root: nat,
                    ghost b: seq<bool>, input: seq<byte>, ghost fed: nat, r: Reg)
    returns (e: Entry, ghost n: nat, r': Reg)
    requires Reads(b, input, fed, r) && GoodTable(kind, sl, tab, root) && 15 <= r.bits
    ensures Reads(b, input, fed, r') && 0 <= Pos(fed, r) <= |b| && Fetched(kind, sl, e, n, b, Pos(fed, r))
    ensures Moved(input, fed, r, r', n) && 0 < n <= 15 && r'.next == r.next && !IsLink(e)
    ensures n == Needs(tab, root, r.hold)
  {
    hide Reads, Lsb, Low, High, Pow2, GoodTable, Needs, FindAny, FoundOk, DecodeSym, Fetched, Means;
    Bounds(b, input, fed, r);
    LookupSteps(kind, sl, tab, root, r.hold);
    Tells(kind, sl, tab, root, b, input, fed, r);
    e := tab[Low(r.hold, root)];
    n := e.bits;
    r' := DropBits(b, input, fed, r, e.bits);
    if IsLink(e) {
      HighLow(r.hold, e.bits, e.op);
      e := tab[e.val + Low(r'.hold, e.op)];
      n := n + e.bits;
      r' := DropBits(b, input, fed, r', e.bits);
    }
    NotLink(kind, sl, e, n, b, Pos(fed, r));
  }

  lemma NotLink(kind: Kind, sl: seq<nat>, e: Entry, n: nat, b: seq<bool>, pos: nat)
    requires pos <= |b| && Fetched(kind, sl, e, n, b, pos)
    ensures !IsLink(e)
  {
    hide DecodeSym;
  }

  /** A code that was only partly read before is longer than what was read. */
  lemma NeedsMore(kind: Kind, sl: seq<nat>, tab: seq<Entry>, root: nat, b: seq<bool>, input: seq<byte>, fed: nat,
                  r: Reg, r': Reg)
    requires Reads(b, input, fed, r) && Reads(b, input, fed, r') && SamePlace(input, fed, r, r') && r.bits <= r'.bits
    requires GoodTable(kind, sl, tab, root) && Needs(tab, root, r.hold) > r.bits
    ensures Needs(tab, root, r'.hold) > r.bits
  {
    hide Lsb, Low, High, Pow2, FindAny, FoundOk, TableOk, Kraft;
    LookupSteps(kind, sl, tab, root, r.hold);
    LookupSteps(kind, sl, tab, root, r'.hold);
    EntryStable(kind, sl, FindAny(tab, root, r.hold), FindAny(tab, root, r'.hold), b, Pos(fed, r), r.bits, r'.bits);
  }

  /** What one turn of inflate_fast reads. */
  datatype Item = Literal(v: nat) | Match(len: nat, dist: nat) | EndOfBlock | Invalid

  /** What remains to be decoded after an item. */
  function AfterItem(c: Codes, item: Item, size: nat): Point {
    match item
    case Literal(v) => AtLiteral(c, v)
    case Match(len, dist) => if 0 < dist <= size then AtMatch(c, dist, len) else AtBad
    case EndOfBlock => AtBlock(c.last)
    case Invalid => AtBad
  }

  ghost predicate ItemOk(item: Item) {
    match item
    case Literal(v) => v < 256
    case Match(len, dist) => 3 <= len <= 258 && 1 <= dist <= WSIZE
    case _ => true
  }

  /** The distance half of a match: at most 28 bits. */
  method FastDistance(ghost b: seq<bool>, input: seq<byte>, ghost fed: nat, r: Reg, ghost c: Codes, len: nat,
                      tab: seq<Entry>, root: nat, ghost h: seq<byte>, ghost first: nat)
    returns (item: Item, r': Reg)
    requires Stands(b, input, fed, r, AtDistance(c, len), h) && GoodTable(DISTS, c.dl, tab, root) && 3 <= len <= 258
    requires first + 6 <= |input| && first <= r.next <= first + 6 && Pos(fed, r) <= 8 * (fed + first) + 20
    ensures ItemOk(item) && Stands(b, input, fed, r', AfterItem(c, item, |h|), h)
    ensures r'.next <= first + 6 && Avail(input, r') <= Avail(input, r)
  {
    hide Rest, Goal, Reads, Stands, GoodTable, Needs, Fetched, DecodeSym, Pow2, Lsb;
    ghost var p := AtDistance(c, len);
    StandsBounds(b, input, fed, r, p, h);
    var e;
    ghost var n;
    r' := Refill(b, input, fed, r);
    Stay(b, input, fed, r, r', p, h);
    ghost var r0 := r';
    e, n, r' := FastSymbol(DISTS, c.dl, tab, root, b, input, fed, r');
    Bounds(b, input, fed, r');
    DistStep(c, len, e, n, b, Pos(fed, r0), h);
    Go(b, input, fed, r0, r', p, AfterDist(c, len, e), h, n);
    if !IsBase(e.op) {
      item := Invalid;
      return;
    }
    var extra := e.op % 16;
    p := AtDistanceBits(c, len, e.val, extra);
    r0 := r';
    if r'.bits < extra {
      r' := Pull(b, input, fed, r');
      if r'.bits < extra {
        r' := Pull(b, input, fed, r');
      }
    }
    Stay(b, input, fed, r0, r', p, h);
    StandsBounds(b, input, fed, r', p, h);
    ExtraStep(b, Pos(fed, r'), p, extra, h);
    var v;
    r0 := r';
    v, r' := TakeBits(b, input, fed, r', extra);
    Go(b, input, fed, r0, r', p, AfterExtra(p, v, |h|), h, extra);
    InDistRange(e.val, extra, v);
    item := Match(len, e.val + v);
  }

  /** The reading of one turn: at most 48 bits, so at most 6 bytes. */
  method FastItem(ghost b: seq<bool>, input: seq<byte>, ghost fed: nat, r: Reg, ghost c: Codes,
                  lencode: seq<Entry>, lenbits: nat, distcode: seq<Entry>, distbits: nat, ghost h: seq<byte>)
    returns (item: Item, r': Reg)
    requires Stands(b, input, fed, r, AtSymbol(c), h) && r.next + 6 <= |input|
    requires GoodTable(LENS, c.ll, lencode, lenbits) && GoodTable(DISTS, c.dl, distcode, distbits)
    ensures ItemOk(item) && Stands(b, input, fed, r', AfterItem(c, item, |h|), h)
    ensures r'.next <= r.next + 6 && Avail(input, r') < Avail(input, r)
    ensures Awaits(lencode, lenbits, r) ==> Pos(fed, r') + 7 >= 8 * (fed + r.next)
  {
    hide Rest, Goal, Reads, Stands, GoodTable, Needs, Fetched, DecodeSym, Pow2, Lsb;
    ghost var p := AtSymbol(c);
    StandsBounds(b, input, fed, r, p, h);
    var e;
    ghost var n;
    r' := Refill(b, input, fed, r);
    if Needs(lencode, lenbits, r.hold) > r.bits {
      NeedsMore(LENS, c.ll, lencode, lenbits, b, input, fed, r, r');
    }
    Stay(b, input, fed, r, r', p, h);
    ghost var r0 := r';
    e, n, r' := FastSymbol(LENS, c.ll, lencode, lenbits, b, input, fed, r');
    Bounds(b, input, fed, r');
    LenStep(c, e, n, b, Pos(fed, r0), h);
    Go(b, input, fed, r0, r', p, AfterLen(c, e), h, n);
    if e.op == 0 {
      item := Literal(e.val);
    } else if IsBase(e.op) {
      item, r' := FastLength(b, input, fed, r', c, e.val, e.op % 16, distcode, distbits, h, r.next);
    } else if IsEnd(e.op) {
      item := EndOfBlock;
    } else {
      item := Invalid;
    }
  }

  method FastLength(ghost b: seq<bool>, input: seq<byte>, ghost fed: nat, r: Reg, ghost c: Codes, base: nat, extra: nat,
                    distcode: seq<Entry>, distbits: nat, ghost h: seq<byte>, ghost first: nat)
    returns (item: Item, r': Reg)
    requires Stands(b, input, fed, r, AtLengthBits(c, base, extra), h) && LengthRange(base, extra)
    requires GoodTable(DISTS, c.dl, distcode, distbits)
    requires first + 6 <= |input| && first <= r.next <= first + 6 && Pos(fed, r) <= 8 * (fed + first) + 15
    ensures ItemOk(item) && Stands(b, input, fed, r', AfterItem(c, item, |h|), h)
    ensures r'.next <= first + 6 && Avail(input, r') <= Avail(input, r)
  {
    hide Rest, Goal, Reads, Stands, GoodTable, Pow2, Lsb;
    ghost var p := AtLengthBits(c, base, extra);
    StandsBounds(b, input, fed, r, p, h);
    r' := r;
    if r'.bits < extra {
      r' := Pull(b, input, fed, r');
    }
    Stay(b, input, fed, r, r', p, h);
    StandsBounds(b, input, fed, r', p, h);
    ExtraStep(b, Pos(fed, r'), p, extra, h);
    ghost var r0 := r';
    var v;
    v, r' := TakeBits(b, input, fed, r', extra);
    Go(b, input, fed, r0, r', p, AfterExtra(p, v, |h|), h, extra);
    InLengthRange(base, extra, v);
    item, r' := FastDistance(b, input, fed, r', c, base + v, distcode, distbits, h, first);
  }

  /** The unused bytes go back to the input. */
  method GiveBack(ghost b: seq<bool>, input: seq<byte>, ghost fed: nat, r: Reg, ghost p: Point, ghost h: seq<byte>,
                  ghost first: nat)
    returns (r': Reg)
    requires Stands(b, input, fed, r, p, h) && Pos(fed, r) + 7 >= 8 * (fed + first)
    ensures Stands(b, input, fed, r', p, h) && r'.bits < 8 && first <= r'.next && SamePlace(input, fed, r, r')
  {
    hide Rest, Goal, Lsb, Low;
    StandsBounds(b, input, fed, r, p, h);
    var len := r.bits / 8;
    HoldBits(b, input, fed, r, r.bits - 8 * len);
    r' := Reg(r.next - len, Low(r.hold, r.bits - 8 * len), r.bits - 8 * len);
    Stay(b, input, fed, r, r', p, h);
  }
}
