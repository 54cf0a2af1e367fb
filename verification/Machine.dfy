/**
 The states of inflate and its steps that produce no output (src/cmd/INIT/ratz.c:2992-3246).
 A step works on the registers that inflate loads and on the record of decoding state; it
 either goes on to another mode or leaves the call for want of input.
 */
module Machine {
  import opened Bits
  import opened Huffman
  import opened TableSpec
  import opened Deflate
  import opened Lookup
  import opened Resume
  import opened BitReader
  import opened Steps
  import opened SymbolSteps
  import Fixed
  import InflateTable

  datatype Mode =
    | HEAD | TYPE | TYPEDO | STORED | COPY | TABLE | LENLENS | CODELENS
    | LEN | LENEXT | DIST | DISTEXT | MATCH | LIT | CHECK | DONE | BAD

  datatype State = State(
    mode: Mode, last: bool, length: nat, offset: nat, extra: nat,
    lencode: seq<Entry>, lenbits: nat, distcode: seq<Entry>, distbits: nat,
    ncode: nat, nlen: nat, ndist: nat, have: nat, lens: seq<nat>)

  /** The codes that the tables of a state decode: code lengths, literal/lengths, distances. */
  datatype Lens = Lens(cl: seq<nat>, ll: seq<nat>, dl: seq<nat>)

  const ENOUGH := InflateTable.ENOUGH

  /** Modes fall through to modes of lower rank when they need no input or output. */
  function Rank(m: Mode): nat {
    match m
    case HEAD => 7 case STORED => 7 case TABLE => 7
    case COPY => 6 case LENLENS => 6
    case TYPE => 5 case CODELENS => 5
    case TYPEDO => 4 case LENEXT => 4
    case LEN => 3 case DIST => 3 case DISTEXT => 3
    case MATCH => 2 case LIT => 2
    case CHECK => 1
    case DONE => 0 case BAD => 0
  }

  /** Both tables decode the codes of the current block. */
  ghost predicate CodesOk(s: State, k: Lens) {
    GoodTable(LENS, k.ll, s.lencode, s.lenbits) && GoodTable(DISTS, k.dl, s.distcode, s.distbits)
  }

  predicate HeaderOk(s: State) {
    257 <= s.nlen <= 286 && 1 <= s.ndist <= 30 && 4 <= s.ncode <= 19
  }

  function BlockHeader(s: State): Header {
    Header(s.last, s.nlen, s.ndist, s.ncode)
  }

  /** The point of the decoder that a state stands for. */
  ghost function At(s: State, k: Lens): Point {
    var c := Codes(s.last, k.ll, k.dl);
    match s.mode
    case HEAD => AtBlock(s.last)
    case TYPE => AtBlock(s.last)
    case TYPEDO => AtBlock(s.last)
    case STORED => AtStored(s.last)
    case COPY => AtCopy(s.last, s.length)
    case TABLE => AtDynamic(s.last)
    case LENLENS => if |s.lens| == 320 && s.have <= 19 then AtCodeLengthCode(BlockHeader(s), Sent(s.lens, s.have))
      else AtBad
    case CODELENS => if s.have <= |s.lens| then AtLengths(BlockHeader(s), k.cl, s.lens[..s.have]) else AtBad
    case LEN => AtSymbol(c)
    case LENEXT => AtLengthBits(c, s.length, s.extra)
    case DIST => AtDistance(c, s.length)
    case DISTEXT => AtDistanceBits(c, s.length, s.offset, s.extra)
    case MATCH => AtMatch(c, s.offset, s.length)
    case LIT => AtLiteral(c, s.length)
    case CHECK => AtDone
    case DONE => AtDone
    case BAD => AtBad
  }

  /**
   What holds in each mode.  At every symbol boundary the accumulator has less than a
   byte; while a symbol is awaited every byte that was read is needed for it.
   */
  ghost predicate ModeOk(s: State, k: Lens, r: Reg, size: nat)
    requires |s.lens| == 320
  {
    match s.mode
    case HEAD => r.bits < 8 && !s.last
    case TYPE => r.bits < 8
    case TYPEDO => r.bits < 8
    case STORED => r.bits < 8 || r.bits % 8 == 0
    case COPY => r.bits == 0
    case TABLE => r.bits < 14
    case LENLENS => r.bits < 8 && HeaderOk(s) && s.have <= s.ncode && SentOk(s.lens, s.have)
    case CODELENS =>
      && HeaderOk(s) && LengthCodeTable(k.cl, s.lencode, s.lenbits)
      && s.have <= s.nlen + s.ndist && ValidLengths(s.lens[..s.have])
      && (r.bits < 8 || (s.have < s.nlen + s.ndist && LengthNeeds(s.lencode, s.lenbits, r.hold) > r.bits))
    case LEN => CodesOk(s, k) && Awaits(s.lencode, s.lenbits, r)
    case LENEXT => CodesOk(s, k) && r.bits < 8 && LengthRange(s.length, s.extra)
    case DIST => CodesOk(s, k) && Awaits(s.distcode, s.distbits, r) && 3 <= s.length <= 258
    case DISTEXT =>
      && CodesOk(s, k) && (r.bits < 8 || r.bits < s.extra)
      && 3 <= s.length <= 258 && DistRange(s.offset, s.extra)
    case MATCH => CodesOk(s, k) && r.bits < 8 && 1 <= s.length <= 258 && 1 <= s.offset <= WSIZE && s.offset <= size
    case LIT => CodesOk(s, k) && r.bits < 8 && s.length < 256
    case CHECK => r.bits == 0
    case DONE => r.bits == 0
    case BAD => true
  }

  /** The state and registers are right for output h. */
  ghost predicate Right(b: seq<bool>, input: seq<byte>, fed: nat, r: Reg, s: State, k: Lens, h: seq<byte>) {
    |s.lens| == 320 && ModeOk(s, k, r, |h|) && Stands(b, input, fed, r, At(s, k), h)
  }

  /** What every step promises: the state stays right, and either it leaves the call for
      want of input or it uses up input bits or the mode falls. */
  ghost predicate Stepped(b: seq<bool>, input: seq<byte>, fed: nat, r: Reg, s: State, h: seq<byte>,
                          leave: bool, r': Reg, s': State, k': Lens) {
    && Right(b, input, fed, r', s', k', h) && Avail(input, r') <= Avail(input, r)
    && if leave then s'.mode == s.mode && Starved(b, input, fed, r', h)
       else Avail(input, r') < Avail(input, r) || Rank(s'.mode) < Rank(s.mode)
  }

  method StepType(ghost b: seq<bool>, input: seq<byte>, ghost fed: nat, r: Reg, s: State, ghost k: Lens,
                  ghost h: seq<byte>)
    returns (leave: bool, r': Reg, s': State, ghost k': Lens)
    requires Right(b, input, fed, r, s, k, h) && (s.mode == TYPE || s.mode == TYPEDO)
    ensures Stepped(b, input, fed, r, s, h, leave, r', s', k')
  {
    hide Rest, Goal, Stands, Starved, FixedLit, FixedDist, Needs, GoodTable;
    leave, s', k' := false, s, k;
    if s.last {
      r' := EndBlocks(b, input, fed, r, h);
      s' := s.(mode := CHECK);
    } else {
      var ok, last, kind;
      ok, last, kind, r' := ReadType(b, input, fed, r, h);
      if !ok {
        leave := true;
      } else if kind == 0 {
        s' := s.(last := last, mode := STORED);
      } else if kind == 1 {
        s', k' := FixedTables(s.(last := last), k);
        s' := s'.(mode := LEN);
      } else if kind == 2 {
        s' := s.(last := last, mode := TABLE);
      } else {
        s' := s.(last := last, mode := BAD);
      }
    }
  }

  /** The fixed codes and their tables. */
  method FixedTables(s: State, ghost k: Lens) returns (s': State, ghost k': Lens)
    ensures CodesOk(s', k') && k' == Lens(k.cl, FixedLit(), FixedDist())
    ensures s' == s.(lencode := s'.lencode, lenbits := 9, distcode := s'.distcode, distbits := 5)
  {
    hide Fixed.LenFix, Fixed.DistFix, FixedLit, FixedDist, GoodTable;
    Fixed.LenFixOk();
    Fixed.DistFixOk();
    s' := s.(lencode := Fixed.LenFix(), lenbits := 9, distcode := Fixed.DistFix(), distbits := 5);
    k' := Lens(k.cl, FixedLit(), FixedDist());
  }

  method StepStored(ghost b: seq<bool>, input: seq<byte>, ghost fed: nat, r: Reg, s: State, ghost k: Lens,
                    ghost h: seq<byte>)
    returns (leave: bool, r': Reg, s': State)
    requires Right(b, input, fed, r, s, k, h) && s.mode == STORED
    ensures Stepped(b, input, fed, r, s, h, leave, r', s', k)
  {
    hide Rest, Goal, Stands, Starved;
    var ok, bad, n;
    ok, bad, n, r' := ReadStored(b, input, fed, r, s.last, h);
    leave := !ok;
    s' := if !ok then s else if bad then s.(mode := BAD) else s.(length := n, mode := COPY);
  }

  method StepTable(ghost b: seq<bool>, input: seq<byte>, ghost fed: nat, r: Reg, s: State, ghost k: Lens,
                   ghost h: seq<byte>)
    returns (leave: bool, r': Reg, s': State)
    requires Right(b, input, fed, r, s, k, h) && s.mode == TABLE
    ensures Stepped(b, input, fed, r, s, h, leave, r', s', k)
  {
    hide Rest, Goal, Stands, Starved, Sent, SentOk;
    var ok, nlen, ndist, ncode;
    ok, nlen, ndist, ncode, r' := ReadSizes(b, input, fed, r, s.last, h);
    leave, s' := !ok, s;
    if ok {
      NothingSent(s.lens);
      s' := s.(nlen := nlen, ndist := ndist, ncode := ncode, have := 0);
      s' := s'.(mode := if nlen > 286 || ndist > 30 then BAD else LENLENS);
    }
  }

  /** The scratch arrays of the table builder. */
  predicate Scratch(codes: array<Entry>, work: array<nat>) {
    codes.Length == ENOUGH && work.Length == 288
  }

  method StepLenLens(ghost b: seq<bool>, input: seq<byte>, ghost fed: nat, r: Reg, s: State, ghost k: Lens,
                     ghost h: seq<byte>, codes: array<Entry>, work: array<nat>)
    returns (leave: bool, r': Reg, s': State, ghost k': Lens)
    requires Right(b, input, fed, r, s, k, h) && s.mode == LENLENS && Scratch(codes, work)
    modifies codes, work
    ensures Stepped(b, input, fed, r, s, h, leave, r', s', k')
  {
    hide Rest, Goal, Stands, Starved, Sent, SentOk, LengthCodeTable, LengthNeeds, Acceptable, LengthCode;
    k' := k;
    var ok, have, lens;
    ok, have, lens, r' := ReadLengthLengths(b, input, fed, r, BlockHeader(s), s.have, s.ncode, s.lens, h);
    leave, s' := !ok, s.(have := have, lens := lens);
    if ok {
      ghost var acc := Sent(lens, have);
      StandsBounds(b, input, fed, r', AtCodeLengthCode(BlockHeader(s), acc), h);
      CodeLengthStep(b, Pos(fed, r'), BlockHeader(s), acc, h);
      lens := PadLengthLengths(have, lens);
      k' := k.(cl := lens[..19]);
      var ret, lencode, lenbits := BuildLengthCode(lens, codes, work);
      Go(b, input, fed, r', r', AtCodeLengthCode(BlockHeader(s), acc),
         if ret != 0 then AtBad else AtLengths(BlockHeader(s), k'.cl, []), h, 0);
      s' := s.(lens := lens, lencode := lencode, lenbits := lenbits);
      if ret != 0 {
        s' := s'.(mode := BAD);
      } else {
        s' := s'.(have := 0, mode := CODELENS);
        NoLengths(lens);
      }
    }
  }

  lemma NoLengths(lens: seq<nat>)
    ensures lens[..0] == [] && ValidLengths(lens[..0])
  {
  }

  /** inflate_table on the code length code. */
  method BuildLengthCode(lens: seq<nat>, codes: array<Entry>, work: array<nat>)
    returns (ret: int, lencode: seq<Entry>, lenbits: nat)
    requires Scratch(codes, work) && |lens| == 320 && forall i :: 0 <= i < 19 ==> lens[i] < 8
    modifies codes, work
    ensures ret == 0 <==> Acceptable(CODES, lens[..19])
    ensures ret == 0 ==> LengthCodeTable(lens[..19], lencode, lenbits)
  {
    hide Acceptable, TableOk, InflateTable.HasRoom, OverSubscribed;
    var cl := lens[..19];
    var used;
    if Acceptable(CODES, cl) {
      InflateTable.CodesRoom(cl);
      InflateTable.RoomGrows(cl, 7, 655, codes.Length);
      InflateTable.AcceptableFits(CODES, cl);
    }
    ret, used, lenbits := InflateTable.Build(CODES, cl, 7, codes, 0, work);
    lencode := if ret == 0 then codes[0..0 + used] else [];
  }

  method StepCodeLens(ghost b: seq<bool>, input: seq<byte>, ghost fed: nat, r: Reg, s: State, ghost k: Lens,
                      ghost h: seq<byte>, codes: array<Entry>, work: array<nat>)
    returns (leave: bool, r': Reg, s': State, ghost k': Lens)
    requires Right(b, input, fed, r, s, k, h) && s.mode == CODELENS && Scratch(codes, work)
    modifies codes, work
    ensures Stepped(b, input, fed, r, s, h, leave, r', s', k')
  {
    hide Rest, Goal, Stands, Starved, LengthCodeTable, LengthNeeds, ValidLengths, Acceptable, GoodTable, Needs;
    k' := k;
    ghost var hd := BlockHeader(s);
    var ok, bad, have, lens;
    ok, bad, lens, have, r' := ReadLengths(b, input, fed, r, hd, s.nlen, s.ndist, k.cl, s.lencode, s.lenbits, s.lens,
      s.have, h);
    leave, s' := !ok, s.(have := have, lens := lens);
    if !ok {
    } else if bad {
      s' := s'.(mode := BAD);
    } else {
      ghost var got := lens[..have];
      StandsBounds(b, input, fed, r', AtLengths(hd, k.cl, got), h);
      LengthsEnd(b, Pos(fed, r'), hd, k.cl, got, h);
      ValidHalves(got, s.nlen);
      var good;
      good, s' := BuildCodes(s', codes, work);
      k' := k.(ll := got[..s.nlen], dl := got[s.nlen..]);
      Go(b, input, fed, r', r', AtLengths(hd, k.cl, got), if good then AtSymbol(Codes(s.last, k'.ll, k'.dl))
        else AtBad, h, 0);
      s' := s'.(mode := if good then LEN else BAD);
    }
  }

  lemma ValidHalves(got: seq<nat>, n: nat)
    requires ValidLengths(got) && n <= |got|
    ensures ValidLengths(got[..n]) && ValidLengths(got[n..])
  {
  }

  /** inflate_table on the literal/length code and then, behind it, on the distance code. */
  method BuildCodes(s: State, codes: array<Entry>, work: array<nat>) returns (good: bool, s': State)
    requires Scratch(codes, work) && HeaderOk(s) && s.have == s.nlen + s.ndist <= |s.lens|
    requires ValidLengths(s.lens[..s.have][..s.nlen]) && ValidLengths(s.lens[..s.have][s.nlen..])
    modifies codes, work
    ensures s' == s.(lencode := s'.lencode, lenbits := s'.lenbits, distcode := s'.distcode, distbits := s'.distbits)
    ensures var ll, dl := s.lens[..s.have][..s.nlen], s.lens[..s.have][s.nlen..];
            && (good <==> Acceptable(LENS, ll) && Acceptable(DISTS, dl))
            && (good ==> CodesOk(s', Lens([], ll, dl)))
  {
    hide Acceptable, TableOk, InflateTable.HasRoom, OverSubscribed, ValidLengths;
    var ll, dl := s.lens[..s.have][..s.nlen], s.lens[..s.have][s.nlen..];
    assert ll == s.lens[..s.nlen] && dl == s.lens[s.nlen..s.nlen + s.ndist];
    good, s' := false, s;
    InflateTable.EnoughIsEnough(ll, dl);
    if Acceptable(LENS, ll) {
      InflateTable.RoomGrows(ll, 9, 922, codes.Length);
      InflateTable.AcceptableFits(LENS, ll);
    }
    var ret, used, root := InflateTable.Build(LENS, s.lens[..s.nlen], 9, codes, 0, work);
    if ret != 0 {
      return;
    }
    s' := s'.(lencode := codes[0..0 + used], lenbits := root);
    if Acceptable(DISTS, dl) {
      InflateTable.RoomGrows(dl, 6, 1114, codes.Length - used);
      InflateTable.AcceptableFits(DISTS, dl);
    }
    var used';
    ret, used', root := InflateTable.Build(DISTS, s.lens[s.nlen..s.nlen + s.ndist], 6, codes, used, work);
    if ret != 0 {
      return;
    }
    s' := s'.(distcode := codes[used..used + used'], distbits := root);
    good := true;
  }

  // ------------------------------------------------------- compressed data

  /** LEN one byte at a time. */
  method StepLen(ghost b: seq<bool>, input: seq<byte>, ghost fed: nat, r: Reg, s: State, ghost k: Lens,
                 ghost h: seq<byte>)
    returns (leave: bool, r': Reg, s': State)
    requires Right(b, input, fed, r, s, k, h) && s.mode == LEN
    ensures Stepped(b, input, fed, r, s, h, leave, r', s', k)
    ensures leave ==> s' == s
  {
    hide Rest, Goal, Stands, Starved, GoodTable, Needs;
    var ok, e;
    ok, e, r' := ReadSymbol(b, input, fed, r, Codes(s.last, k.ll, k.dl), s.lencode, s.lenbits, h);
    leave, s' := !ok, s;
    if ok {
      s' := s.(length := e.val);
      if e.op == 0 {
        s' := s'.(mode := LIT);
      } else if IsEnd(e.op) {
        s' := s'.(mode := TYPE);
      } else if IsInvalid(e.op) {
        s' := s'.(mode := BAD);
      } else {
        s' := s'.(extra := e.op % 16, mode := LENEXT);
      }
    }
  }

  method StepLenExt(ghost b: seq<bool>, input: seq<byte>, ghost fed: nat, r: Reg, s: State, ghost k: Lens,
                    ghost h: seq<byte>)
    returns (leave: bool, r': Reg, s': State)
    requires Right(b, input, fed, r, s, k, h) && s.mode == LENEXT
    ensures Stepped(b, input, fed, r, s, h, leave, r', s', k)
  {
    hide Rest, Goal, Stands, Starved, GoodTable, Needs, Pow2;
    var ok, v;
    ok, v, r' := ReadExtra(b, input, fed, r, At(s, k), s.extra, h);
    leave, s' := !ok, s;
    if ok {
      InLengthRange(s.length, s.extra, v);
      s' := s.(length := s.length + v, mode := DIST);
    }
  }

  method StepDist(ghost b: seq<bool>, input: seq<byte>, ghost fed: nat, r: Reg, s: State, ghost k: Lens,
                  ghost h: seq<byte>)
    returns (leave: bool, r': Reg, s': State)
    requires Right(b, input, fed, r, s, k, h) && s.mode == DIST
    ensures Stepped(b, input, fed, r, s, h, leave, r', s', k)
  {
    hide Rest, Goal, Stands, Starved, GoodTable, Needs;
    var ok, e;
    ok, e, r' := ReadDistance(b, input, fed, r, Codes(s.last, k.ll, k.dl), s.length, s.distcode, s.distbits, h);
    leave, s' := !ok, s;
    if ok {
      if IsInvalid(e.op) {
        s' := s.(mode := BAD);
      } else {
        s' := s.(offset := e.val, extra := e.op % 16, mode := DISTEXT);
      }
    }
  }

  /** A window's worth of history, or all of it, is within reach. */
  predicate InReach(reach: nat, size: nat) {
    reach <= size && (reach < size ==> reach >= WSIZE)
  }

  method StepDistExt(ghost b: seq<bool>, input: seq<byte>, ghost fed: nat, r: Reg, s: State, ghost k: Lens,
                     ghost h: seq<byte>, reach: nat)
    returns (leave: bool, r': Reg, s': State)
    requires Right(b, input, fed, r, s, k, h) && s.mode == DISTEXT && InReach(reach, |h|)
    ensures Stepped(b, input, fed, r, s, h, leave, r', s', k)
  {
    hide Rest, Goal, Stands, Starved, GoodTable, Needs, Pow2;
    var ok, v;
    ok, v, r' := ReadExtra(b, input, fed, r, At(s, k), s.extra, h);
    leave, s' := !ok, s;
    if ok {
      InDistRange(s.offset, s.extra, v);
      s' := s.(offset := s.offset + v);
      if s'.offset > reach {
        s' := s'.(mode := BAD);
      } else {
        s' := s'.(mode := MATCH);
      }
    }
  }

  /** The reading of a turn of inflate_fast, from mode LEN. */
  method StepFast(ghost b: seq<bool>, input: seq<byte>, ghost fed: nat, r: Reg, s: State, ghost k: Lens,
                  ghost h: seq<byte>)
    returns (item: Item, r': Reg)
    requires s.mode == LEN && CodesOk(s, k) && r.next + 6 <= |input| && Stands(b, input, fed, r, At(s, k), h)
    ensures ItemOk(item) && Stands(b, input, fed, r', AfterItem(Codes(s.last, k.ll, k.dl), item, |h|), h)
    ensures r'.next <= r.next + 6 && Avail(input, r') < Avail(input, r)
    ensures Awaits(s.lencode, s.lenbits, r) ==> Pos(fed, r') + 7 >= 8 * (fed + r.next)
  {
    hide Stands, GoodTable, Needs, ItemOk, AfterItem;
    item, r' := FastItem(b, input, fed, r, Codes(s.last, k.ll, k.dl), s.lencode, s.lenbits, s.distcode, s.distbits, h);
  }

  predicate ReadsInput(m: Mode) {
    m == TYPE || m == TYPEDO || m == STORED || m == TABLE || m == LENLENS || m == CODELENS
    || m == LEN || m == LENEXT || m == DIST || m == DISTEXT
  }

  /** A step of a mode that only reads. */
  method StepInput(ghost b: seq<bool>, input: seq<byte>, ghost fed: nat, r: Reg, s: State, ghost k: Lens,
                   ghost h: seq<byte>, reach: nat, codes: array<Entry>, work: array<nat>)
    returns (leave: bool, r': Reg, s': State, ghost k': Lens)
    requires Right(b, input, fed, r, s, k, h) && ReadsInput(s.mode) && InReach(reach, |h|) && Scratch(codes, work)
    modifies codes, work
    ensures Stepped(b, input, fed, r, s, h, leave, r', s', k')
  {
    hide Right, Stepped, InReach;
    k' := k;
    match s.mode
    case STORED => leave, r', s' := StepStored(b, input, fed, r, s, k, h);
    case TABLE => leave, r', s' := StepTable(b, input, fed, r, s, k, h);
    case LENLENS => leave, r', s', k' := StepLenLens(b, input, fed, r, s, k, h, codes, work);
    case CODELENS => leave, r', s', k' := StepCodeLens(b, input, fed, r, s, k, h, codes, work);
    case LEN => leave, r', s' := StepLen(b, input, fed, r, s, k, h);
    case LENEXT => leave, r', s' := StepLenExt(b, input, fed, r, s, k, h);
    case DIST => leave, r', s' := StepDist(b, input, fed, r, s, k, h);
    case DISTEXT => leave, r', s' := StepDistExt(b, input, fed, r, s, k, h, reach);
    case _ => leave, r', s', k' := StepType(b, input, fed, r, s, k, h);
  }

  // ------------------------------------------------------- steps with output

  lemma LitDone(b: seq<bool>, input: seq<byte>, fed: nat, r: Reg, s: State, k: Lens, h: seq<byte>)
    requires Right(b, input, fed, r, s, k, h) && s.mode == LIT
    ensures s.length < 256 && Right(b, input, fed, r, s.(mode := LEN), k, h + [s.length])
  {
    hide Rest, Goal, Reads, Stands, GoodTable, Needs;
    StandsBounds(b, input, fed, r, At(s, k), h);
    LiteralStep(b, Pos(fed, r), Codes(s.last, k.ll, k.dl), s.length, h);
    Emit(b, input, fed, r, At(s, k), AtSymbol(Codes(s.last, k.ll, k.dl)), h, h + [s.length]);
  }

  /** The state after n bytes of a match. */
  function MatchLeft(s: State, n: nat): State
    requires n <= s.length
  {
    s.(length := s.length - n, mode := if n == s.length then LEN else MATCH)
  }

  lemma MatchDone(b: seq<bool>, input: seq<byte>, fed: nat, r: Reg, s: State, k: Lens, h: seq<byte>, n: nat)
    requires Right(b, input, fed, r, s, k, h) && s.mode == MATCH && n <= s.length
    ensures 0 < s.offset <= |h| && Right(b, input, fed, r, MatchLeft(s, n), k, LzCopy(h, s.offset, n))
  {
    hide Right, Rest, LzCopy;
    MatchReach(b, input, fed, r, s, k, h);
    MatchStep(b, Pos(fed, r), Codes(s.last, k.ll, k.dl), s.offset, s.length, h, n);
    if n == s.length {
      MatchAll(b, input, fed, r, s, k, h, LzCopy(h, s.offset, n));
    } else {
      MatchPart(b, input, fed, r, s, k, h, n, LzCopy(h, s.offset, n));
    }
  }

  lemma MatchReach(b: seq<bool>, input: seq<byte>, fed: nat, r: Reg, s: State, k: Lens, h: seq<byte>)
    requires Right(b, input, fed, r, s, k, h) && s.mode == MATCH
    ensures 0 < s.offset <= |h| && 0 <= Pos(fed, r) <= |b|
  {
    hide Rest, Goal, Reads, GoodTable, Needs;
  }

  lemma MatchAll(b: seq<bool>, input: seq<byte>, fed: nat, r: Reg, s: State, k: Lens, h: seq<byte>, h': seq<byte>)
    requires Right(b, input, fed, r, s, k, h) && s.mode == MATCH && 0 <= Pos(fed, r) <= |b|
    requires var c := Codes(s.last, k.ll, k.dl);
             Rest(AtMatch(c, s.offset, s.length), b, Pos(fed, r), h) == Rest(AtSymbol(c), b, Pos(fed, r), h')
    ensures Right(b, input, fed, r, s.(length := 0, mode := LEN), k, h')
  {
    hide Rest, Goal, Reads, Stands, GoodTable, Needs;
    var c := Codes(s.last, k.ll, k.dl);
    Emit(b, input, fed, r, AtMatch(c, s.offset, s.length), AtSymbol(c), h, h');
  }

  lemma MatchPart(b: seq<bool>, input: seq<byte>, fed: nat, r: Reg, s: State, k: Lens, h: seq<byte>, n: nat,
                  h': seq<byte>)
    requires Right(b, input, fed, r, s, k, h) && s.mode == MATCH && n < s.length && 0 <= Pos(fed, r) <= |b|
      && |h| <= |h'|
    requires var c := Codes(s.last, k.ll, k.dl);
             Rest(AtMatch(c, s.offset, s.length), b, Pos(fed, r), h) == Rest(AtMatch(c, s.offset, s.length - n), b,
               Pos(fed, r), h')
    ensures Right(b, input, fed, r, s.(length := s.length - n), k, h')
  {
    hide Rest, Goal, Reads, Stands, GoodTable, Needs;
    var c := Codes(s.last, k.ll, k.dl);
    Emit(b, input, fed, r, AtMatch(c, s.offset, s.length), AtMatch(c, s.offset, s.length - n), h, h');
  }

  lemma CopyDone(b: seq<bool>, input: seq<byte>, fed: nat, r: Reg, s: State, k: Lens, h: seq<byte>)
    requires Right(b, input, fed, r, s, k, h) && s.mode == COPY && s.length > 0 && r.next < |input|
    ensures Right(b, input, fed, Reg(r.next + 1, 0, 0), s.(length := s.length - 1), k, h + [input[r.next]])
  {
    hide Stands;
    CopyByte(b, input, fed, r, s.last, s.length, h);
  }

  lemma CopyEnds(b: seq<bool>, input: seq<byte>, fed: nat, r: Reg, s: State, k: Lens, h: seq<byte>)
    requires Right(b, input, fed, r, s, k, h) && s.mode == COPY
    ensures r.next <= |input| && r.bits == 0
    ensures s.length == 0 ==> Right(b, input, fed, r, s.(mode := TYPE), k, h)
    ensures s.length > 0 && r.next == |input| ==> Starved(b, input, fed, r, h)
  {
    hide Rest, Goal, Reads, Stands, Starved;
    StandsBounds(b, input, fed, r, AtCopy(s.last, s.length), h);
    CopyWaits(b, input, fed, r, s.last, s.length, h);
  }

  lemma ModeFacts(b: seq<bool>, input: seq<byte>, fed: nat, r: Reg, s: State, k: Lens, h: seq<byte>)
    requires Right(b, input, fed, r, s, k, h)
    ensures r.next <= |input| && Avail(input, r) >= 0
    ensures s.mode == MATCH ==> 1 <= s.length && 1 <= s.offset <= |h| && s.offset <= WSIZE
    ensures s.mode == LEN ==> CodesOk(s, k) && Awaits(s.lencode, s.lenbits, r) && Stands(b, input, fed, r, At(s, k), h)
    ensures s.mode == TYPE ==> Right(b, input, fed, r, s.(mode := TYPEDO), k, h)
    ensures s.mode == HEAD ==> Right(b, input, fed, r, s.(mode := TYPEDO), k, h)
    ensures s.mode == CHECK ==> Right(b, input, fed, r, s.(mode := DONE), k, h)
  {
    hide Rest, Goal, Reads, Stands, GoodTable, Needs;
    StandsBounds(b, input, fed, r, At(s, k), h);
  }

  // ------------------------------------------------------------ inflate_fast

  lemma FastLiteral(b: seq<bool>, input: seq<byte>, fed: nat, r: Reg, c: Codes, v: nat, h: seq<byte>)
    requires ItemOk(Literal(v)) && Stands(b, input, fed, r, AfterItem(c, Literal(v), |h|), h)
    ensures v < 256 && Stands(b, input, fed, r, AtSymbol(c), h + [v])
  {
    hide Rest, Goal, Reads, Stands;
    StandsBounds(b, input, fed, r, AtLiteral(c, v), h);
    LiteralStep(b, Pos(fed, r), c, v, h);
    Emit(b, input, fed, r, AtLiteral(c, v), AtSymbol(c), h, h + [v]);
  }

  lemma FastCopied(b: seq<bool>, input: seq<byte>, fed: nat, r: Reg, c: Codes, dist: nat, len: nat, h: seq<byte>)
    requires 0 < dist <= |h| && Stands(b, input, fed, r, AfterItem(c, Match(len, dist), |h|), h)
    ensures Stands(b, input, fed, r, AtSymbol(c), LzCopy(h, dist, len))
  {
    hide Rest, Goal, Reads, Stands, LzCopy;
    StandsBounds(b, input, fed, r, AtMatch(c, dist, len), h);
    MatchStep(b, Pos(fed, r), c, dist, len, h, len);
    Emit(b, input, fed, r, AtMatch(c, dist, len), AtSymbol(c), h, LzCopy(h, dist, len));
  }

  lemma SameCodes(s: State, k: Lens, mode: Mode)
    ensures CodesOk(s.(mode := mode), k) <==> CodesOk(s, k)
  {
    hide GoodTable;
  }

  /** With less than a byte in the accumulator the checked modes can go on. */
  lemma FastToSlow(b: seq<bool>, input: seq<byte>, fed: nat, r: Reg, s: State, k: Lens, h: seq<byte>)
    requires |s.lens| == 320 && CodesOk(s, k) && r.bits < 8 && Stands(b, input, fed, r, At(s, k), h)
    requires s.mode == LEN || s.mode == TYPE || s.mode == BAD
    ensures Right(b, input, fed, r, s, k, h)
  {
    hide Stands, CodesOk, Needs;
  }

  // ------------------------------------------------------------- whole calls

  /** The end of the stream has been found exactly where the next byte will be read. */
  lemma AtEnd(b: seq<bool>, input: seq<byte>, fed: nat, r: Reg, s: State, k: Lens, h: seq<byte>)
    requires Right(b, input, fed, r, s, k, h)
    ensures s.mode == DONE ==> Goal(b) == Done(h, fed + r.next)
    ensures s.mode == BAD ==> Goal(b) == Bad(h)
    ensures h <= Goal(b).out && r.next <= |input|
  {
    hide Goal, Reads, GoodTable, Needs;
    StandsBounds(b, input, fed, r, At(s, k), h);
  }

  /** Before the first call. */
  lemma AtStart(b: seq<bool>, s: State, k: Lens)
    requires s.mode == HEAD && !s.last && |s.lens| == 320 && |b| % 8 == 0
    ensures Right(b, [], 0, Reg(0, 0, 0), s, k, [])
  {
    hide GoodTable, Needs, Blocks;
    assert Lsb(b, 0, 0) == 0;
  }

  lemma NextFits(b: seq<bool>, input: seq<byte>, fed: nat, r: Reg, s: State, k: Lens, h: seq<byte>)
    requires Right(b, input, fed, r, s, k, h)
    ensures r.next <= |input|
  {
    hide Right;
    ModeFacts(b, input, fed, r, s, k, h);
  }

  /** A call ends and another one begins with more input. */
  lemma Rebase(b: seq<bool>, input: seq<byte>, fed: nat, r: Reg, s: State, k: Lens, h: seq<byte>, input': seq<byte>)
    requires Right(b, input, fed, r, s, k, h) && Slice(b, input', fed + r.next)
    ensures Right(b, input', fed + r.next, Reg(0, r.hold, r.bits), s, k, h)
  {
    hide Rest, Goal, GoodTable, Needs, Lsb;
  }
}
