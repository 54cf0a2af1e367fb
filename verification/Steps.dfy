/**
 The reading half of inflate (src/cmd/INIT/ratz.c:2773-3372), mode by mode, on the
 registers of a call: what each mode takes from the input, and what then remains to be
 decoded.  A mode that finds too little input leaves what it read in the accumulator and
 can be entered again.
 */
module Steps {
  import opened Bits
  import opened Huffman
  import opened TableSpec
  import opened Deflate
  import opened Lookup
  import opened Resume
  import opened BitReader

  /** What the caller will have in the end. */
  ghost function Goal(b: seq<bool>): Outcome {
    Blocks(b, 0, false, [])
  }

  /** Decoding on from p with registers r, after output h, gives what the stream gives. */
  ghost predicate Stands(b: seq<bool>, input: seq<byte>, fed: nat, r: Reg, p: Point, h: seq<byte>) {
    Reads(b, input, fed, r) && 0 <= Pos(fed, r) <= |b| && Rest(p, b, Pos(fed, r), h) == Goal(b)
  }

  /** All input is used up; if that was the end of the stream, it breaks off here. */
  ghost predicate Starved(b: seq<bool>, input: seq<byte>, fed: nat, r: Reg, h: seq<byte>) {
    r.next == |input| && (8 * (fed + |input|) == |b| ==> Goal(b) == Short(h))
  }

  /** The same point, with at least as much read. */
  lemma Stay(b: seq<bool>, input: seq<byte>, fed: nat, r: Reg, r': Reg, p: Point, h: seq<byte>)
    requires Stands(b, input, fed, r, p, h) && Reads(b, input, fed, r') && SamePlace(input, fed, r, r')
    ensures Stands(b, input, fed, r', p, h)
  {
    hide Rest, Reads, Goal;
  }

  /** One step of the decoder, over n bits. */
  lemma Go(b: seq<bool>, input: seq<byte>, fed: nat, r: Reg, r': Reg, p: Point, p': Point, h: seq<byte>, n: nat)
    requires Stands(b, input, fed, r, p, h) && Reads(b, input, fed, r') && Moved(input, fed, r, r', n)
    requires Pos(fed, r) + n <= |b| && Rest(p, b, Pos(fed, r), h) == Rest(p', b, Pos(fed, r) + n, h)
    ensures Stands(b, input, fed, r', p', h)
  {
    hide Rest, Reads, Goal;
  }

  /** One step of the decoder that only puts out. */
  lemma Emit(b: seq<bool>, input: seq<byte>, fed: nat, r: Reg, p: Point, p': Point, h: seq<byte>, h': seq<byte>)
    requires Stands(b, input, fed, r, p, h) && Rest(p, b, Pos(fed, r), h) == Rest(p', b, Pos(fed, r), h')
    ensures Stands(b, input, fed, r, p', h')
  {
    hide Rest, Reads, Goal;
  }

  lemma StandsBounds(b: seq<bool>, input: seq<byte>, fed: nat, r: Reg, p: Point, h: seq<byte>)
    requires Stands(b, input, fed, r, p, h)
    ensures Reads(b, input, fed, r) && 0 <= Pos(fed, r) <= Pos(fed, r) + r.bits == 8 * (fed + r.next) <= |b|
    ensures r.bits <= 32 && r.next <= |input| && Rest(p, b, Pos(fed, r), h) == Goal(b)
    ensures r.hold == Lsb(b, Pos(fed, r), r.bits)
  {
    hide Rest, Goal;
  }

  /** The input has ended where the decoder wants n more bits. */
  lemma Ends(b: seq<bool>, input: seq<byte>, fed: nat, r: Reg, p: Point, h: seq<byte>, n: nat)
    requires Stands(b, input, fed, r, p, h) && r.next == |input| && r.bits < n
    requires Pos(fed, r) + n > |b| ==> Rest(p, b, Pos(fed, r), h) == Short(h)
    ensures Starved(b, input, fed, r, h)
  {
    hide Rest, Goal;
  }

  // ------------------------------------------------------------ block headers

  /** What follows the three bits of a block header. */
  function AfterType(last: bool, kind: nat): Point {
    if kind == 0 then AtStored(last)
    else if kind == 1 then AtSymbol(Codes(last, FixedLit(), FixedDist()))
    else if kind == 2 then AtDynamic(last)
    else AtBad
  }

  /** After the final block the rest of its last byte is dropped. */
  method EndBlocks(ghost b: seq<bool>, input: seq<byte>, ghost fed: nat, r: Reg, ghost h: seq<byte>) returns (r': Reg)
    requires Stands(b, input, fed, r, AtBlock(true), h) && r.bits < 8
    ensures Stands(b, input, fed, r', AtDone, h) && r'.bits == 0 && Moved(input, fed, r, r', r.bits)
  {
    hide Rest, Goal, Reads, Stands;
    StandsBounds(b, input, fed, r, AtBlock(true), h);
    BlockStep(b, Pos(fed, r), true, h);
    DoneStep(b, Pos(fed, r), h, Pos(fed, r) + r.bits);
    r' := DropBits(b, input, fed, r, r.bits % 8);
    Go(b, input, fed, r, r', AtBlock(true), AtDone, h, r.bits);
  }

  method ReadType(ghost b: seq<bool>, input: seq<byte>, ghost fed: nat, r: Reg, ghost h: seq<byte>)
    returns (ok: bool, last: bool, kind: nat, r': Reg)
    requires Stands(b, input, fed, r, AtBlock(false), h) && r.bits < 8
    ensures r'.bits < 8 && kind < 4
    ensures ok ==> Stands(b, input, fed, r', AfterType(last, kind), h) && Moved(input, fed, r, r', 3)
    ensures !ok ==> Stands(b, input, fed, r', AtBlock(false), h) && Starved(b, input, fed, r', h)
    ensures !ok ==> SamePlace(input, fed, r, r')
  {
    hide Rest, Goal, Reads, Stands, Starved, Lsb, FixedLit, FixedDist;
    StandsBounds(b, input, fed, r, AtBlock(false), h);
    last, kind := false, 0;
    var pos: nat := Pos(fed, r);
    BlockStep(b, pos, false, h);
    ok, r' := NeedBits(b, input, fed, r, 3);
    Stay(b, input, fed, r, r', AtBlock(false), h);
    if !ok {
      Ends(b, input, fed, r', AtBlock(false), h, 3);
      return;
    }
    StandsBounds(b, input, fed, r', AtBlock(false), h);
    FlagBit(b, pos);
    FourKinds(b, pos + 1);
    var flag;
    flag, r' := TakeBits(b, input, fed, r', 1);
    last := flag == 1;
    kind, r' := TakeBits(b, input, fed, r', 2);
    Go(b, input, fed, r, r', AtBlock(false), AfterType(last, kind), h, 3);
  }

  lemma FlagBit(b: seq<bool>, pos: nat)
    requires pos < |b|
    ensures Lsb(b, pos, 1) == if b[pos] then 1 else 0
  {
    assert Lsb(b, pos + 1, 0) == 0;
  }

  lemma FourKinds(b: seq<bool>, pos: nat)
    requires pos + 2 <= |b|
    ensures Lsb(b, pos, 2) < 4
  {
    assert Pow2(2) == 4;
  }

  // -------------------------------------------------------------- stored blocks

  method ReadStored(ghost b: seq<bool>, input: seq<byte>, ghost fed: nat, r: Reg, ghost last: bool, ghost h: seq<byte>)
    returns (ok: bool, bad: bool, length: nat, r': Reg)
    requires Stands(b, input, fed, r, AtStored(last), h) && (r.bits < 8 || r.bits % 8 == 0)
    ensures r'.bits % 8 == 0 && Avail(input, r') <= Avail(input, r)
    ensures ok && bad ==> Stands(b, input, fed, r', AtBad, h)
    ensures ok && !bad ==> Stands(b, input, fed, r', AtCopy(last, length), h) && r'.bits == 0 && length < 65536
    ensures !ok ==> Stands(b, input, fed, r', AtStored(last), h) && Starved(b, input, fed, r', h)
  {
    hide Rest, Goal, Reads, Stands, Starved, Lsb, Low, High;
    StandsBounds(b, input, fed, r, AtStored(last), h);
    bad, length := false, 0;
    StoredStep(b, Pos(fed, r), last, h, Pos(fed, r) + r.bits % 8);
    r' := DropBits(b, input, fed, r, r.bits % 8);
    Go(b, input, fed, r, r', AtStored(last), AtStored(last), h, r.bits % 8);
    ghost var r0 := r';
    ok, r' := NeedBits(b, input, fed, r', 32);
    Stay(b, input, fed, r0, r', AtStored(last), h);
    StandsBounds(b, input, fed, r', AtStored(last), h);
    if !ok {
      Ends(b, input, fed, r', AtStored(last), h, 32);
      return;
    }
    bad, length, r' := StoredLength(b, input, fed, r', last, h);
  }

  /** LEN and NLEN, which fill the accumulator. */
  method StoredLength(ghost b: seq<bool>, input: seq<byte>, ghost fed: nat, r: Reg, ghost last: bool,
                      ghost h: seq<byte>)
    returns (bad: bool, length: nat, r': Reg)
    requires Stands(b, input, fed, r, AtStored(last), h) && r.bits == 32
    ensures bad ==> r' == r && Stands(b, input, fed, r', AtBad, h)
    ensures !bad ==> Stands(b, input, fed, r', AtCopy(last, length), h) && r'.bits == 0 && length < 65536
    ensures Avail(input, r') <= Avail(input, r)
  {
    hide Rest, Goal, Reads, Stands, Lsb, Low, High;
    StandsBounds(b, input, fed, r, AtStored(last), h);
    ghost var pos: nat := Pos(fed, r);
    StoredStep(b, pos, last, h, pos);
    HoldBits(b, input, fed, r, 16);
    HighHalf(b, pos);
    SixteenBits(r.hold);
    bad, length, r' := Low(r.hold, 16) != 65535 - High(r.hold, 16), Low(r.hold, 16), r;
    if bad {
      BadStep(b, pos, pos + 32, h);
      Go(b, input, fed, r, r, AtStored(last), AtBad, h, 0);
    } else {
      r' := DropBits(b, input, fed, r, 32);
      Go(b, input, fed, r, r', AtStored(last), AtCopy(last, length), h, 32);
    }
  }

  lemma SixteenBits(x: nat)
    ensures Low(x, 16) < 65536
  {
    Pow2Values();
  }

  /** The upper half of a full accumulator. */
  lemma HighHalf(b: seq<bool>, pos: nat)
    requires pos + 32 <= |b|
    ensures High(Lsb(b, pos, 32), 16) == Lsb(b, pos + 16, 16)
  {
    LsbTake(b, pos, 16, 16);
  }

  /** On a byte boundary the next byte of the stream is the next input byte. */
  lemma CopyByte(b: seq<bool>, input: seq<byte>, fed: nat, r: Reg, last: bool, n: nat, h: seq<byte>)
    requires Stands(b, input, fed, r, AtCopy(last, n), h) && r.bits == 0 && r.next < |input| && n > 0
    ensures Stands(b, input, fed, Reg(r.next + 1, 0, 0), AtCopy(last, n - 1), h + [input[r.next]])
  {
    hide Rest, Goal, Lsb;
    CopyStep(b, Pos(fed, r), n, last, h);
    assert Lsb(b, 8 * (fed + r.next), 8) == input[r.next];
  }

  lemma CopyWaits(b: seq<bool>, input: seq<byte>, fed: nat, r: Reg, last: bool, n: nat, h: seq<byte>)
    requires Stands(b, input, fed, r, AtCopy(last, n), h) && r.bits == 0
    ensures n == 0 ==> Stands(b, input, fed, r, AtBlock(last), h)
    ensures n > 0 && r.next == |input| ==> Starved(b, input, fed, r, h)
  {
    hide Rest, Goal, ByteAt;
    CopyStep(b, Pos(fed, r), n, last, h);
  }

  // ------------------------------------------------------------ dynamic headers

  predicate TooMany(nlen: nat, ndist: nat) {
    nlen > 286 || ndist > 30
  }

  method ReadSizes(ghost b: seq<bool>, input: seq<byte>, ghost fed: nat, r: Reg, ghost last: bool, ghost h: seq<byte>)
    returns (ok: bool, nlen: nat, ndist: nat, ncode: nat, r': Reg)
    requires Stands(b, input, fed, r, AtDynamic(last), h) && r.bits < 14
    ensures ok ==> 257 <= nlen && 1 <= ndist && 4 <= ncode <= 19 && r'.bits < 8 && Moved(input, fed, r, r', 14)
    ensures ok ==> Stands(b, input, fed, r', if TooMany(nlen, ndist) then AtBad
                          else AtCodeLengthCode(Header(last, nlen, ndist, ncode), []), h)
    ensures !ok ==> Stands(b, input, fed, r', AtDynamic(last), h) && Starved(b, input, fed, r', h) && r'.bits < 14
    ensures !ok ==> SamePlace(input, fed, r, r')
  {
    hide Rest, Goal, Reads, Stands, Starved, Lsb;
    StandsBounds(b, input, fed, r, AtDynamic(last), h);
    nlen, ndist, ncode := 257, 1, 4;
    DynamicStep(b, Pos(fed, r), last, h);
    ok, r' := NeedBits(b, input, fed, r, 14);
    Stay(b, input, fed, r, r', AtDynamic(last), h);
    StandsBounds(b, input, fed, r', AtDynamic(last), h);
    if !ok {
      Ends(b, input, fed, r', AtDynamic(last), h, 14);
      return;
    }
    SmallFields(b, Pos(fed, r));
    var v;
    v, r' := TakeBits(b, input, fed, r', 5);
    nlen := v + 257;
    v, r' := TakeBits(b, input, fed, r', 5);
    ndist := v + 1;
    v, r' := TakeBits(b, input, fed, r', 4);
    ncode := v + 4;
    Go(b, input, fed, r, r', AtDynamic(last), if TooMany(nlen, ndist) then AtBad
       else AtCodeLengthCode(Header(last, nlen, ndist, ncode), []), h, 14);
  }

  lemma SmallFields(b: seq<bool>, pos: nat)
    requires pos + 14 <= |b|
    ensures Lsb(b, pos, 5) < 32 && Lsb(b, pos + 5, 5) < 32 && Lsb(b, pos + 10, 4) < 16
  {
    Pow2Values();
  }

  /** The code length code lengths read so far, in the order they were sent. */
  ghost function Sent(lens: seq<nat>, have: nat): (r: seq<nat>)
    requires |lens| == 320 && have <= 19
    ensures |r| == have
  {
    seq(have, i requires 0 <= i < have => lens[ORDER[i]])
  }

  ghost predicate SentOk(lens: seq<nat>, have: nat)
    requires |lens| == 320 && have <= 19
  {
    forall i :: 0 <= i < have ==> lens[ORDER[i]] < 8
  }

  lemma NothingSent(lens: seq<nat>)
    requires |lens| == 320
    ensures Sent(lens, 0) == [] && SentOk(lens, 0)
  {
  }

  method ReadLengthLengths(ghost b: seq<bool>, input: seq<byte>, ghost fed: nat, r: Reg, ghost hd: Header,
                           have0: nat, ncode: nat, lens0: seq<nat>, ghost h: seq<byte>)
    returns (ok: bool, have: nat, lens: seq<nat>, r': Reg)
    requires r.bits < 8 && hd.ncode == ncode <= 19 && have0 <= ncode && |lens0| == 320 && SentOk(lens0, have0)
    requires Stands(b, input, fed, r, AtCodeLengthCode(hd, Sent(lens0, have0)), h)
    ensures r'.bits < 8 && have <= ncode && |lens| == 320 && SentOk(lens, have)
    ensures Stands(b, input, fed, r', AtCodeLengthCode(hd, Sent(lens, have)), h)
    ensures Avail(input, r') <= Avail(input, r)
    ensures ok ==> have == ncode
    ensures !ok ==> Starved(b, input, fed, r', h)
  {
    hide Rest, Goal, Reads, Stands, Starved, Lsb, Sent, SentOk;
    ok, have, lens, r' := true, have0, lens0, r;
    while have < ncode
      invariant r'.bits < 8 && have <= ncode && |lens| == 320 && SentOk(lens, have)
      invariant Stands(b, input, fed, r', AtCodeLengthCode(hd, Sent(lens, have)), h)
      invariant Avail(input, r') <= Avail(input, r)
    {
      ghost var p, r0 := AtCodeLengthCode(hd, Sent(lens, have)), r';
      StandsBounds(b, input, fed, r', p, h);
      CodeLengthStep(b, Pos(fed, r'), hd, Sent(lens, have), h);
      ok, r' := NeedBits(b, input, fed, r', 3);
      Stay(b, input, fed, r0, r', p, h);
      StandsBounds(b, input, fed, r', p, h);
      if !ok {
        Ends(b, input, fed, r', p, h, 3);
        return;
      }
      var v;
      v, r' := TakeBits(b, input, fed, r', 3);
      ThreeBits(b, Pos(fed, r0));
      SentMore(lens, have, v);
      lens := lens[ORDER[have] := v];
      have := have + 1;
      Go(b, input, fed, r0, r', p, AtCodeLengthCode(hd, Sent(lens, have)), h, 3);
    }
  }

  lemma ThreeBits(b: seq<bool>, pos: nat)
    requires pos + 3 <= |b|
    ensures Lsb(b, pos, 3) < 8
  {
    Pow2Values();
  }

  /** PLACE is the inverse of ORDER. */
  lemma OrderPlace(i: nat)
    requires i < 19
    ensures ORDER[i] < 19 && PLACE[ORDER[i]] == i
  {
  }

  lemma PlaceOrder(s: nat)
    requires s < 19
    ensures PLACE[s] < 19 && ORDER[PLACE[s]] == s
  {
  }

  lemma SentMore(lens: seq<nat>, have: nat, v: nat)
    requires |lens| == 320 && have < 19 && SentOk(lens, have) && v < 8
    ensures ORDER[have] < 19 && SentOk(lens[ORDER[have] := v], have + 1)
    ensures Sent(lens[ORDER[have] := v], have + 1) == Sent(lens, have) + [v]
  {
    OrderPlace(have);
    var lens' := lens[ORDER[have] := v];
    forall i | 0 <= i < have
      ensures lens'[ORDER[i]] == lens[ORDER[i]]
    {
      OrderPlace(i);
      OrderPlace(have);
    }
  }

  lemma OrderApart(have: nat)
    requires have < 19
    ensures ORDER[have] < 19 && forall i :: 0 <= i < have ==> ORDER[i] < 19 && ORDER[i] != ORDER[have]
  {
    OrderPlace(have);
    forall i | 0 <= i < have
      ensures ORDER[i] < 19 && ORDER[i] != ORDER[have]
    {
      OrderPlace(i);
    }
  }

  /** What is left when the lengths that were not sent are zero. */
  lemma Padded(lens0: seq<nat>, lens: seq<nat>, have: nat)
    requires have <= 19 && |lens| == |lens0| == 320 && SentOk(lens0, have)
    requires forall i :: 0 <= i < 19 ==> ORDER[i] < 19
    requires forall i :: 0 <= i < have ==> lens[ORDER[i]] == lens0[ORDER[i]]
    requires forall i :: have <= i < 19 ==> lens[ORDER[i]] == 0
    ensures lens[..19] == LengthCode(Sent(lens0, have)) && forall s :: 0 <= s < 19 ==> lens[s] < 8
  {
    forall s | 0 <= s < 19
      ensures lens[s] == LengthCode(Sent(lens0, have))[s] && lens[s] < 8
    {
      PlaceOrder(s);
      assert lens[s] == lens[ORDER[PLACE[s]]];
    }
  }

  /** The lengths that were not sent are zero. */
  method PadLengthLengths(have0: nat, lens0: seq<nat>) returns (lens: seq<nat>)
    requires have0 <= 19 && |lens0| == 320 && SentOk(lens0, have0)
    ensures |lens| == 320 && lens[..19] == LengthCode(Sent(lens0, have0))
    ensures forall i :: 0 <= i < 19 ==> lens[i] < 8
  {
    hide LengthCode, Sent, SentOk;
    lens := lens0;
    var have := have0;
    while have < 19
      invariant have0 <= have <= 19 && |lens| == 320
      invariant forall i :: 0 <= i < have0 ==> lens[ORDER[i]] == lens0[ORDER[i]]
      invariant forall i :: have0 <= i < have ==> lens[ORDER[i]] == 0
    {
      OrderApart(have);
      lens := lens[ORDER[have] := 0];
      have := have + 1;
    }
    Padded(lens0, lens, have0);
  }

  // ------------------------------------------------------------- code lengths

  /** The table of the code length code, in which no code is longer than a root index. */
  ghost predicate LengthCodeTable(cl: seq<nat>, tab: seq<Entry>, root: nat) {
    && GoodTable(CODES, cl, tab, root) && Acceptable(CODES, cl) && |cl| == 19
    && forall i :: 0 <= i < |cl| ==> cl[i] <= 7 && cl[i] <= root
  }

  /** The bits of the next code length with its repeat count. */
  function LengthNeeds(tab: seq<Entry>, root: nat, hold: nat): nat {
    if Low(hold, root) < |tab| then ItemBits(tab[Low(hold, root)]) else 0
  }

  function ItemBits(e: Entry): nat {
    e.bits + if e.val < 16 then 0 else if e.val == 16 then 2 else if e.val == 17 then 3 else 7
  }

  lemma NoLinks(cl: seq<nat>, tab: seq<Entry>, root: nat, hold: nat)
    requires LengthCodeTable(cl, tab, root)
    ensures Low(hold, root) < |tab| && !IsLink(tab[Low(hold, root)])
  {
    hide Low, High, Prefixes, Pow2, Means, NoneAfter, Kraft, Acceptable;
    var x := Low(hold, MAXBITS);
    assert WordOk(CODES, cl, tab, root, x);
    LowLow(hold, root, MAXBITS);
    LookupSteps(CODES, cl, tab, root, hold);
  }

  /** In a complete code every bit string either starts with a code or breaks off in one. */
  lemma AlwaysCode(lens: seq<nat>, b: seq<bool>, pos: nat)
    requires ValidLengths(lens) && Complete(lens) && pos <= |b|
    ensures !DecodeSym(lens, b, pos).NoCode?
  {
    hide CodeOf, Low, Lsb, Msb, Kraft, Pow2, Sorted, Rev;
    var w := if |b| - pos < MAXBITS then |b| - pos else MAXBITS;
    var x := Lsb(b, pos, w);
    var k := CompleteCovers(lens, x);
    var s := Order(lens)[k];
    CodeInWidth(lens, s);
    if lens[s] <= w {
      HerePrefixes(lens, s, b, pos, w);
      assert CodeHere(lens, s, b, pos);
    } else {
      CutOff(lens, s, b, pos, w);
      assert CodeBegun(lens, s, b, pos);
    }
  }

  lemma EmptyNoCode(lens: seq<nat>, b: seq<bool>, pos: nat)
    requires Empty(lens) && pos <= |b|
    ensures DecodeSym(lens, b, pos) == if pos == |b| then CutShort else NoCode
  {
    hide Msb, CodeOf, High;
    assert forall s: nat :: !CodeHere(lens, s, b, pos) && !CodeBegun(lens, s, b, pos);
  }

  /** A root entry whose bits are there is the next code length. */
  lemma LengthAt(cl: seq<nat>, tab: seq<Entry>, root: nat, b: seq<bool>, input: seq<byte>, fed: nat, r: Reg)
    requires Reads(b, input, fed, r) && LengthCodeTable(cl, tab, root)
    requires Low(r.hold, root) < |tab| && tab[Low(r.hold, root)].bits <= r.bits
    ensures var e := tab[Low(r.hold, root)];
            && 0 <= Pos(fed, r) <= |b| && LengthSym(cl, b, Pos(fed, r)) == Sym(e.val, e.bits)
            && e.val <= 18 && 0 < e.bits <= MAXBITS && Needs(tab, root, r.hold) == e.bits
            && (Tight(b, fed, r, tab, root) ==> r.bits < e.bits + 8)
  {
    hide Reads, Low, High, Pow2, Lsb, Kraft, TableOk, FindAny, Needs, DecodeSym, Tight, FoundOk, CodeOf;
    var e := tab[Low(r.hold, root)];
    NoLinks(cl, tab, root, r.hold);
    LookupSteps(CODES, cl, tab, root, r.hold);
    Tells(CODES, cl, tab, root, b, input, fed, r);
    Bounds(b, input, fed, r);
    var pos := Pos(fed, r);
    if Empty(cl) {
      EmptyNoCode(cl, b, pos);
    } else {
      AlwaysCode(cl, b, pos);
    }
  }

  lemma LengthWaits(cl: seq<nat>, tab: seq<Entry>, root: nat, b: seq<bool>, input: seq<byte>, fed: nat, r: Reg)
    requires Reads(b, input, fed, r) && LengthCodeTable(cl, tab, root) && 8 * (fed + r.next) == |b|
    requires Needs(tab, root, r.hold) > r.bits
    ensures 0 <= Pos(fed, r) <= |b| && LengthSym(cl, b, Pos(fed, r)) == CutShort
  {
    hide Reads, Low, Lsb, Kraft, TableOk, Needs, DecodeSym, CodeOf;
    Bounds(b, input, fed, r);
    Waits(CODES, cl, tab, root, b, input, fed, r);
    if Empty(cl) {
      EmptyNoCode(cl, b, Pos(fed, r));
    }
  }

  /** The lookup loop of CODELENS and the NEEDBITS that follows it. */
  method FetchLength(ghost cl: seq<nat>, tab: seq<Entry>, root: nat,
                     ghost b: seq<bool>, input: seq<byte>, ghost fed: nat, r: Reg)
    returns (ok: bool, e: Entry, r': Reg)
    requires Reads(b, input, fed, r) && LengthCodeTable(cl, tab, root)
    requires r.bits < 8 || LengthNeeds(tab, root, r.hold) > r.bits
    ensures Reads(b, input, fed, r') && SamePlace(input, fed, r, r') && 0 <= Pos(fed, r) <= |b|
    ensures ok ==> LengthSym(cl, b, Pos(fed, r)) == Sym(e.val, e.bits) && e.val <= 18 && 0 < e.bits <= MAXBITS
    ensures ok ==> ItemBits(e) <= r'.bits < ItemBits(e) + 8
    ensures !ok ==> r'.next == |input| && LengthNeeds(tab, root, r'.hold) > r'.bits
    ensures !ok && 8 * (fed + |input|) == |b| ==>
              var s := LengthSym(cl, b, Pos(fed, r));
              s == CutShort || (s.Sym? && s.s >= 16 && Pos(fed, r) + s.n + RepeatExtra(s.s) > |b|)
  {
    hide Reads, Low, Lsb, Needs, LengthSym, LengthCodeTable, Tight;
    Bounds(b, input, fed, r);
    TableGood(cl, tab, root);
    ok, e, r' := FetchRoot(CODES, cl, tab, root, b, input, fed, r);
    Bounds(b, input, fed, r');
    NoLinks(cl, tab, root, r'.hold);
    if !ok {
      RootNeeds(cl, tab, root, r'.hold);
      if 8 * (fed + |input|) == |b| {
        LengthWaits(cl, tab, root, b, input, fed, r');
      }
      return;
    }
    LengthAt(cl, tab, root, b, input, fed, r');
    ok, r' := NeedBits(b, input, fed, r', ItemBits(e));
    Bounds(b, input, fed, r');
    if !ok {
      NoLinks(cl, tab, root, r'.hold);
      if LengthNeeds(tab, root, r'.hold) <= r'.bits {
        LengthAt(cl, tab, root, b, input, fed, r');
      }
    }
  }

  lemma TableGood(cl: seq<nat>, tab: seq<Entry>, root: nat)
    requires LengthCodeTable(cl, tab, root)
    ensures GoodTable(CODES, cl, tab, root)
  {
  }

  lemma RootNeeds(cl: seq<nat>, tab: seq<Entry>, root: nat, hold: nat)
    requires LengthCodeTable(cl, tab, root)
    ensures Low(hold, root) < |tab| && Needs(tab, root, hold) <= LengthNeeds(tab, root, hold)
  {
    hide Low, Needs, FindAny, FoundOk, LengthCodeTable;
    TableGood(cl, tab, root);
    NoLinks(cl, tab, root, hold);
    LookupSteps(CODES, cl, tab, root, hold);
  }

  method RepeatLength(lens0: seq<nat>, have0: nat, v: nat, n: nat) returns (lens: seq<nat>, have: nat)
    requires have0 + n <= |lens0|
    ensures |lens| == |lens0| && have == have0 + n && lens[..have] == lens0[..have0] + Repeat(v, n)
  {
    lens, have := lens0, have0;
    var copy := n;
    while copy != 0
      invariant 0 <= copy <= n && |lens| == |lens0| && have == have0 + (n - copy)
      invariant lens[..have] == lens0[..have0] + Repeat(v, n - copy)
    {
      lens := lens[have := v];
      have := have + 1;
      copy := copy - 1;
    }
  }

  /** What the CODELENS loop keeps between lengths. */
  ghost predicate Collects(b: seq<bool>, input: seq<byte>, fed: nat, r: Reg, hd: Header, cl: seq<nat>,
                           lens: seq<nat>, have: nat, h: seq<byte>) {
    && |lens| == 320 && have <= hd.nlen + hd.ndist <= 320 && ValidLengths(lens[..have])
    && Stands(b, input, fed, r, AtLengths(hd, cl, lens[..have]), h)
  }

  /** One turn of the CODELENS loop. */
  method ReadLength(ghost b: seq<bool>, input: seq<byte>, ghost fed: nat, r: Reg, ghost hd: Header, total: nat,
                    ghost cl: seq<nat>, tab: seq<Entry>, root: nat, lens0: seq<nat>, have0: nat, ghost h: seq<byte>)
    returns (ok: bool, bad: bool, lens: seq<nat>, have: nat, r': Reg)
    requires Collects(b, input, fed, r, hd, cl, lens0, have0, h) && have0 < total == hd.nlen + hd.ndist
    requires LengthCodeTable(cl, tab, root) && (r.bits < 8 || LengthNeeds(tab, root, r.hold) > r.bits)
    ensures !ok ==> Collects(b, input, fed, r', hd, cl, lens, have, h) && Starved(b, input, fed, r', h)
                    && LengthNeeds(tab, root, r'.hold) > r'.bits && Avail(input, r') == Avail(input, r)
                    && have == have0
    ensures ok && bad ==> Stands(b, input, fed, r', AtBad, h) && |lens| == 320
    ensures ok && !bad ==> Collects(b, input, fed, r', hd, cl, lens, have, h) && r'.bits < 8
    ensures ok ==> Avail(input, r') < Avail(input, r)
  {
    hide Rest, Goal, Reads, Stands, Starved, Lsb, LengthCodeTable, LengthNeeds, LengthSym, ValidLengths, Repeats;
    ghost var p := AtLengths(hd, cl, lens0[..have0]);
    StandsBounds(b, input, fed, r, p, h);
    bad, lens, have := false, lens0, have0;
    ghost var pos: nat := Pos(fed, r);
    LengthsStep(b, pos, hd, cl, lens[..have], h);
    var e;
    ok, e, r' := FetchLength(cl, tab, root, b, input, fed, r);
    Stay(b, input, fed, r, r', p, h);
    StandsBounds(b, input, fed, r', p, h);
    if !ok {
      LengthStarved(b, input, fed, r', hd, cl, lens[..have], h);
      return;
    }
    ghost var r0 := r';
    r' := DropBits(b, input, fed, r', e.bits);
    if e.val < 16 {
      ValidMore(lens[..have], e.val);
      lens := lens[have := e.val];
      assert lens[..have + 1] == lens0[..have] + [e.val];
      have := have + 1;
      Go(b, input, fed, r0, r', p, AtLengths(hd, cl, lens[..have]), h, e.bits);
    } else {
      bad, lens, have, r' := ReadRepeat(b, input, fed, r0.bits, r', hd, total, cl, e, lens, have, h);
    }
  }

  /** The repeat codes: e was just dropped, its extra bits are there. */
  method ReadRepeat(ghost b: seq<bool>, input: seq<byte>, ghost fed: nat, ghost bits: nat, r: Reg, ghost hd: Header,
                    total: nat, ghost cl: seq<nat>, e: Entry, lens0: seq<nat>, have0: nat, ghost h: seq<byte>)
    returns (bad: bool, lens: seq<nat>, have: nat, r': Reg)
    requires Reads(b, input, fed, r) && 0 <= Pos(fed, r) && 16 <= e.val <= 18
      && ItemBits(e) <= bits == r.bits + e.bits < ItemBits(e) + 8
    requires |lens0| == 320 && have0 < total == hd.nlen + hd.ndist <= 320 && ValidLengths(lens0[..have0])
    requires Pos(fed, r) <= |b| && Goal(b) == Repeats(b, Pos(fed, r), hd, cl, lens0[..have0], e.val, h)
    ensures bad ==> Stands(b, input, fed, r', AtBad, h) && |lens| == 320
    ensures !bad ==> Collects(b, input, fed, r', hd, cl, lens, have, h) && r'.bits < 8
    ensures Avail(input, r') <= Avail(input, r)
  {
    hide Rest, Goal, Reads, Lsb, ValidLengths, Repeat, Repeats;
    Bounds(b, input, fed, r);
    bad, lens, have, r' := false, lens0, have0, r;
    ghost var pos: nat := Pos(fed, r);
    RepeatStep(b, pos, hd, cl, lens[..have], e.val, h);
    BadStep(b, pos, pos + RepeatExtra(e.val), h);
    if e.val == 16 && have == 0 {
      bad := true;
      return;
    }
    var len := if e.val == 16 then lens[have - 1] else 0;
    var copy;
    copy, r' := TakeBits(b, input, fed, r', if e.val == 16 then 2 else if e.val == 17 then 3 else 7);
    copy := copy + if e.val == 18 then 11 else 3;
    if have + copy > total {
      bad := true;
      return;
    }
    ValidRepeat(lens[..have], len, copy);
    lens, have := RepeatLength(lens, have, len, copy);
  }

  lemma LengthStarved(b: seq<bool>, input: seq<byte>, fed: nat, r: Reg, hd: Header, cl: seq<nat>, got: seq<nat>,
                      h: seq<byte>)
    requires Stands(b, input, fed, r, AtLengths(hd, cl, got), h) && r.next == |input| && |got| < hd.nlen + hd.ndist
    requires 0 <= Pos(fed, r) <= |b|
    requires 8 * (fed + |input|) == |b| ==>
               var s := LengthSym(cl, b, Pos(fed, r));
               s == CutShort || (s.Sym? && s.s >= 16 && Pos(fed, r) + s.n + RepeatExtra(s.s) > |b|)
    ensures Starved(b, input, fed, r, h)
  {
    hide Rest, Goal, Reads, LengthSym, Repeats;
    LengthsStep(b, Pos(fed, r), hd, cl, got, h);
    var s := LengthSym(cl, b, Pos(fed, r));
    if s.Sym? {
      RepeatStep(b, Pos(fed, r) + s.n, hd, cl, got, s.s, h);
    }
  }

  lemma ValidMore(got: seq<nat>, v: nat)
    requires ValidLengths(got) && v <= MAXBITS
    ensures ValidLengths(got + [v])
  {
  }

  lemma ValidRepeat(got: seq<nat>, v: nat, n: nat)
    requires ValidLengths(got) && (v == 0 || v in got)
    ensures ValidLengths(got + Repeat(v, n))
  {
  }

  /** The CODELENS loop. */
  method ReadLengths(ghost b: seq<bool>, input: seq<byte>, ghost fed: nat, r: Reg, ghost hd: Header, nlen: nat,
                     ndist: nat,
                     ghost cl: seq<nat>, tab: seq<Entry>, root: nat, lens0: seq<nat>, have0: nat, ghost h: seq<byte>)
    returns (ok: bool, bad: bool, lens: seq<nat>, have: nat, r': Reg)
    requires Collects(b, input, fed, r, hd, cl, lens0, have0, h) && nlen == hd.nlen && ndist == hd.ndist
    requires LengthCodeTable(cl, tab, root) && (r.bits < 8 || LengthNeeds(tab, root, r.hold) > r.bits)
    requires have0 < nlen + ndist || r.bits < 8
    ensures !ok ==> Collects(b, input, fed, r', hd, cl, lens, have, h) && Starved(b, input, fed, r', h)
                    && LengthNeeds(tab, root, r'.hold) > r'.bits && have < nlen + ndist
    ensures ok && bad ==> Stands(b, input, fed, r', AtBad, h) && |lens| == 320
    ensures ok && !bad ==> Collects(b, input, fed, r', hd, cl, lens, have, h) && r'.bits < 8 && have == nlen + ndist
    ensures Avail(input, r') <= Avail(input, r)
  {
    hide Stands, Starved, LengthCodeTable, LengthNeeds, ValidLengths;
    ok, bad, lens, have, r' := true, false, lens0, have0, r;
    while have < nlen + ndist
      invariant ok && !bad && Collects(b, input, fed, r', hd, cl, lens, have, h) && Avail(input, r') <= Avail(input, r)
      invariant r'.bits < 8 || (have < nlen + ndist && LengthNeeds(tab, root, r'.hold) > r'.bits)
      decreases Avail(input, r')
    {
      CollectsBounds(b, input, fed, r', hd, cl, lens, have, h);
      ok, bad, lens, have, r' := ReadLength(b, input, fed, r', hd, nlen + ndist, cl, tab, root, lens, have, h);
      if !ok || bad {
        return;
      }
    }
  }

  lemma CollectsBounds(b: seq<bool>, input: seq<byte>, fed: nat, r: Reg, hd: Header, cl: seq<nat>,
                       lens: seq<nat>, have: nat, h: seq<byte>)
    requires Collects(b, input, fed, r, hd, cl, lens, have, h)
    ensures Avail(input, r) >= 0
  {
    hide Rest, Goal, ValidLengths;
  }
}
