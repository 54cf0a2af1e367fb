/**
 The bit accumulator of inflate and the lookup loops that read from it
 (src/cmd/INIT/ratz.c:2633-2684, 3130-3147, 3165-3181), on the registers that inflate
 loads from the stream and its state.
 */
module BitReader {
  import opened Bits
  import opened Huffman
  import opened TableSpec
  import opened Deflate
  import opened Lookup

  /** The next input byte, and the bits read ahead of the decoding, lowest first. */
  datatype Reg = Reg(next: nat, hold: nat, bits: nat)

  /** input is the part of the stream b from byte fed on. */
  ghost predicate Slice(b: seq<bool>, input: seq<byte>, fed: nat) {
    8 * (fed + |input|) <= |b| && |b| % 8 == 0
    && forall i :: 0 <= i < |input| ==> Lsb(b, 8 * (fed + i), 8) == input[i]
  }

  /** The accumulator holds the bits of the stream just before the next byte. */
  ghost predicate Reads(b: seq<bool>, input: seq<byte>, fed: nat, r: Reg) {
    && Slice(b, input, fed) && r.next <= |input|
    && r.bits <= 32 && r.bits <= 8 * (fed + r.next) && r.hold == Lsb(b, 8 * (fed + r.next) - r.bits, r.bits)
  }

  /** The position in the stream of the first bit not yet used. */
  function Pos(fed: nat, r: Reg): int {
    8 * (fed + r.next) - r.bits
  }

  /** Input bits still at hand. */
  function Avail(input: seq<byte>, r: Reg): int {
    8 * (|input| - r.next) + r.bits
  }

  /** The same position with at least as much read. */
  ghost predicate SamePlace(input: seq<byte>, fed: nat, r: Reg, r': Reg) {
    Pos(fed, r') == Pos(fed, r) && Avail(input, r') == Avail(input, r)
  }

  /** n bits further on. */
  ghost predicate Moved(input: seq<byte>, fed: nat, r: Reg, r': Reg, n: nat) {
    Pos(fed, r') == Pos(fed, r) + n && Avail(input, r') + n == Avail(input, r)
  }

  lemma Bounds(b: seq<bool>, input: seq<byte>, fed: nat, r: Reg)
    requires Reads(b, input, fed, r)
    ensures 0 <= Pos(fed, r) <= Pos(fed, r) + r.bits == 8 * (fed + r.next) <= |b| && r.next <= |input|
    ensures r.hold == Lsb(b, Pos(fed, r), r.bits) && r.bits <= 32
  {
  }

  method PullByte(ghost b: seq<bool>, input: seq<byte>, ghost fed: nat, r: Reg) returns (ok: bool, r': Reg)
    requires Reads(b, input, fed, r) && r.bits <= 24
    ensures Reads(b, input, fed, r') && SamePlace(input, fed, r, r')
    ensures ok <==> r.next < |input|
    ensures r'.next == r.next + (if ok then 1 else 0) && r'.bits == r.bits + (if ok then 8 else 0)
    ensures !ok ==> r' == r && r.next == |input|
  {
    hide Lsb, Shl;
    if r.next == |input| {
      return false, r;
    }
    LsbSplit(b, Pos(fed, r), r.bits, 8);
    assert Lsb(b, 8 * (fed + r.next), 8) == input[r.next];
    r' := Reg(r.next + 1, r.hold + Shl(input[r.next], r.bits), r.bits + 8);
    ok := true;
  }

  method NeedBits(ghost b: seq<bool>, input: seq<byte>, ghost fed: nat, r: Reg, n: nat) returns (ok: bool, r': Reg)
    requires Reads(b, input, fed, r) && (n <= 25 || (n <= 32 && r.bits % 8 == 0))
    ensures Reads(b, input, fed, r') && SamePlace(input, fed, r, r')
    ensures ok <==> r'.bits >= n
    ensures !ok ==> r'.next == |input|
    ensures r'.bits == r.bits || r.bits < r'.bits < n + 8
    ensures r'.bits % 8 == r.bits % 8
  {
    hide Reads, Lsb;
    r' := r;
    while r'.bits < n
      invariant Reads(b, input, fed, r') && SamePlace(input, fed, r, r')
      invariant r'.bits == r.bits || r.bits < r'.bits < n + 8
      invariant r'.bits % 8 == r.bits % 8
      decreases n + 8 - r'.bits
    {
      ok, r' := PullByte(b, input, fed, r');
      if !ok {
        return;
      }
    }
    ok := true;
  }

  method DropBits(ghost b: seq<bool>, input: seq<byte>, ghost fed: nat, r: Reg, n: nat) returns (r': Reg)
    requires Reads(b, input, fed, r) && n <= r.bits
    ensures Reads(b, input, fed, r') && Moved(input, fed, r, r', n)
    ensures r'.next == r.next && r'.bits == r.bits - n && r'.hold == High(r.hold, n)
  {
    hide Lsb, High;
    LsbTake(b, Pos(fed, r), n, r.bits - n);
    assert n + (r.bits - n) == r.bits;
    r' := Reg(r.next, High(r.hold, n), r.bits - n);
  }

  /** The low n bits of the accumulator are the next n bits of the stream. */
  lemma HoldBits(b: seq<bool>, input: seq<byte>, fed: nat, r: Reg, n: nat)
    requires Reads(b, input, fed, r) && n <= r.bits
    ensures 0 <= Pos(fed, r) && Pos(fed, r) + n <= |b| && Low(r.hold, n) == Lsb(b, Pos(fed, r), n)
  {
    hide Lsb, Low, High;
    LsbTake(b, Pos(fed, r), n, r.bits - n);
    assert n + (r.bits - n) == r.bits;
  }

  /** BITS(n) followed by DROPBITS(n). */
  method TakeBits(ghost b: seq<bool>, input: seq<byte>, ghost fed: nat, r: Reg, n: nat) returns (v: nat, r': Reg)
    requires Reads(b, input, fed, r) && n <= r.bits
    ensures Reads(b, input, fed, r') && Moved(input, fed, r, r', n)
    ensures r'.next == r.next && r'.bits == r.bits - n
    ensures 0 <= Pos(fed, r) && Pos(fed, r) + n <= |b| && v == Lsb(b, Pos(fed, r), n)
  {
    hide Reads, Lsb, Low, High;
    HoldBits(b, input, fed, r, n);
    v := Low(r.hold, n);
    r' := DropBits(b, input, fed, r, n);
  }

  // ------------------------------------------------------------ symbol lookup

  /** No more input was read than the symbol being decoded may need. */
  ghost predicate Tight(b: seq<bool>, fed: nat, r: Reg, tab: seq<Entry>, root: nat) {
    r.bits < 8 || Needs(tab, root, r.hold) > r.bits
    || (0 <= Pos(fed, r) <= Pos(fed, r) + r.bits <= |b|
        && Needs(tab, root, Lsb(b, Pos(fed, r), r.bits - 8)) > r.bits - 8)
  }

  /** After one more byte that the symbol needs, the reader is still tight. */
  lemma TightPull(b: seq<bool>, input: seq<byte>, fed: nat, r: Reg, r': Reg, tab: seq<Entry>, root: nat)
    requires Reads(b, input, fed, r) && Reads(b, input, fed, r') && SamePlace(input, fed, r, r')
    requires r'.bits == r.bits + 8 && Needs(tab, root, r.hold) > r.bits
    ensures Tight(b, fed, r', tab, root)
  {
    hide Lsb, Needs;
  }

  /** An entry that wants more bits than there are is no reason to stop early. */
  lemma Waits(kind: Kind, sl: seq<nat>, tab: seq<Entry>, root: nat, b: seq<bool>, input: seq<byte>, fed: nat, r: Reg)
    requires Reads(b, input, fed, r) && GoodTable(kind, sl, tab, root) && Needs(tab, root, r.hold) > r.bits
    requires 8 * (fed + r.next) == |b|
    ensures DecodeSym(sl, b, Pos(fed, r)) == CutShort
  {
    hide Lsb, Low, High, Pow2, FindAny, FoundOk, DecodeSym, TableOk, Kraft;
    LookupSteps(kind, sl, tab, root, r.hold);
    EntryWaits(kind, sl, FindAny(tab, root, r.hold), b, Pos(fed, r), r.bits);
  }

  /** An entry whose bits are all there names the next symbol, and leaves less than a byte. */
  lemma Tells(kind: Kind, sl: seq<nat>, tab: seq<Entry>, root: nat, b: seq<bool>, input: seq<byte>, fed: nat, r: Reg)
    requires Reads(b, input, fed, r) && GoodTable(kind, sl, tab, root) && Needs(tab, root, r.hold) <= r.bits
    ensures 0 <= Pos(fed, r) <= |b| && 0 < Needs(tab, root, r.hold)
    ensures Fetched(kind, sl, FindAny(tab, root, r.hold).e, Needs(tab, root, r.hold), b, Pos(fed, r))
    ensures Tight(b, fed, r, tab, root) ==> r.bits < Needs(tab, root, r.hold) + 8
  {
    hide Lsb, Low, High, Pow2, FindAny, FoundOk, DecodeSym, TableOk, Kraft, Means;
    LookupSteps(kind, sl, tab, root, r.hold);
    var f, pos := FindAny(tab, root, r.hold), Pos(fed, r);
    EntryTells(kind, sl, f, b, pos, r.bits);
    if r.bits >= 8 && Tight(b, fed, r, tab, root) {
      var h0 := Lsb(b, pos, r.bits - 8);
      LookupSteps(kind, sl, tab, root, h0);
      EntryStable(kind, sl, FindAny(tab, root, h0), f, b, pos, r.bits - 8, r.bits);
    }
  }

  /** The first lookup loop: pulls bytes until the root entry's bits are there. */
  method FetchRoot(ghost kind: Kind, ghost sl: seq<nat>, tab: seq<Entry>, root: nat,
                   ghost b: seq<bool>, input: seq<byte>, ghost fed: nat, r: Reg) returns (ok: bool, e: Entry, r': Reg)
    requires Reads(b, input, fed, r) && GoodTable(kind, sl, tab, root)
    ensures Reads(b, input, fed, r') && SamePlace(input, fed, r, r') && |tab| >= Pow2(root)
    ensures ok ==> e == tab[Low(r'.hold, root)] && e.bits <= r'.bits
    ensures r' == r || Tight(b, fed, r', tab, root)
    ensures !ok ==> r'.next == |input| && Needs(tab, root, r'.hold) > r'.bits
  {
    hide Reads, Lsb, Low, High, Pow2, GoodTable, Needs, FindAny, FoundOk, Tight;
    r' := r;
    LookupSteps(kind, sl, tab, root, r'.hold);
    e := tab[Low(r'.hold, root)];
    while e.bits > r'.bits
      invariant Reads(b, input, fed, r') && SamePlace(input, fed, r, r')
      invariant r' == r || Tight(b, fed, r', tab, root)
      invariant |tab| >= Pow2(root) && e == tab[Low(r'.hold, root)]
      decreases |input| - r'.next
    {
      LookupSteps(kind, sl, tab, root, r'.hold);
      ghost var r0 := r';
      ok, r' := PullByte(b, input, fed, r');
      if !ok {
        return;
      }
      TightPull(b, input, fed, r0, r', tab, root);
      e := tab[Low(r'.hold, root)];
    }
    ok := true;
  }

  /** The entry that the link last leads to. */
  predicate Leads(tab: seq<Entry>, last: Entry, hold: nat, e: Entry) {
    var i := last.val + High(Low(hold, last.bits + last.op), last.bits);
    i < |tab| && e == tab[i]
  }

  /** The second lookup loop: pulls bytes until the bits of the entry behind a link are there. */
  method FetchLink(ghost kind: Kind, ghost sl: seq<nat>, tab: seq<Entry>, root: nat, last: Entry,
                   ghost b: seq<bool>, input: seq<byte>, ghost fed: nat, r: Reg) returns (ok: bool, e: Entry, r': Reg)
    requires Reads(b, input, fed, r) && GoodTable(kind, sl, tab, root) && Tight(b, fed, r, tab, root)
      && |tab| >= Pow2(root)
    requires last == tab[Low(r.hold, root)] && last.bits <= r.bits && IsLink(last)
    ensures Reads(b, input, fed, r') && SamePlace(input, fed, r, r')
    ensures ok ==> Leads(tab, last, r'.hold, e) && last.bits + e.bits <= r'.bits && Tight(b, fed, r', tab, root)
                   && last == tab[Low(r'.hold, root)]
    ensures !ok ==> r'.next == |input| && Needs(tab, root, r'.hold) > r'.bits
  {
    hide Reads, Lsb, Low, High, Pow2, GoodTable, Needs, FindAny, FoundOk, Tight;
    r' := r;
    LookupSteps(kind, sl, tab, root, r'.hold);
    e := tab[last.val + High(Low(r'.hold, last.bits + last.op), last.bits)];
    while last.bits + e.bits > r'.bits
      invariant Reads(b, input, fed, r') && SamePlace(input, fed, r, r')
      invariant Tight(b, fed, r', tab, root) && last == tab[Low(r'.hold, root)] && last.bits <= r'.bits
      invariant Leads(tab, last, r'.hold, e)
      decreases |input| - r'.next
    {
      LookupSteps(kind, sl, tab, root, r'.hold);
      HoldBits(b, input, fed, r', root);
      ghost var r0 := r';
      ok, r' := PullByte(b, input, fed, r');
      if !ok {
        return;
      }
      TightPull(b, input, fed, r0, r', tab, root);
      HoldBits(b, input, fed, r', root);
      LookupSteps(kind, sl, tab, root, r'.hold);
      e := tab[last.val + High(Low(r'.hold, last.bits + last.op), last.bits)];
    }
    ok := true;
  }

  /** What a completed fetch gives: the next symbol's entry, with its n bits dropped. */
  ghost predicate Got(kind: Kind, sl: seq<nat>, e: Entry, n: nat, b: seq<bool>, input: seq<byte>, fed: nat, r: Reg,
                      r': Reg) {
    && 0 <= Pos(fed, r) <= |b| && 0 < n && r'.bits < 8
    && Moved(input, fed, r, r', n) && Fetched(kind, sl, e, n, b, Pos(fed, r))
  }

  /** The lookup loops of LEN and DIST: reads just enough bytes to decode the next code,
      and drops its bits. */
  method FetchSym(ghost kind: Kind, ghost sl: seq<nat>, tab: seq<Entry>, root: nat,
                  ghost b: seq<bool>, input: seq<byte>, ghost fed: nat, r: Reg)
    returns (ok: bool, e: Entry, ghost n: nat, r': Reg)
    requires Reads(b, input, fed, r) && GoodTable(kind, sl, tab, root)
    requires r.bits < 8 || Needs(tab, root, r.hold) > r.bits
    ensures Reads(b, input, fed, r')
    ensures ok ==> Got(kind, sl, e, n, b, input, fed, r, r')
    ensures !ok ==> SamePlace(input, fed, r, r') && r'.next == |input| && Needs(tab, root, r'.hold) > r'.bits
    ensures !ok && 8 * (fed + |input|) == |b| ==> 0 <= Pos(fed, r') <= |b| && DecodeSym(sl, b, Pos(fed, r')) == CutShort
  {
    hide Reads, Lsb, Low, High, Pow2, GoodTable, Needs, FindAny, FoundOk, DecodeSym, Fetched, Leads, Tight;
    n := 0;
    TightStart(b, fed, r, tab, root);
    ok, e, r' := FetchRoot(kind, sl, tab, root, b, input, fed, r);
    Bounds(b, input, fed, r');
    if !ok {
      if 8 * (fed + |input|) == |b| {
        Waits(kind, sl, tab, root, b, input, fed, r');
      }
      return;
    }
    if e.op != 0 && e.op < 16 {
      var last := e;
      ok, e, r' := FetchLink(kind, sl, tab, root, last, b, input, fed, r');
      Bounds(b, input, fed, r');
      if !ok {
        if 8 * (fed + |input|) == |b| {
          Waits(kind, sl, tab, root, b, input, fed, r');
        }
        return;
      }
      LinkTells(kind, sl, tab, root, b, input, fed, r', last, e);
      n := last.bits + e.bits;
      r' := DropBits(b, input, fed, r', last.bits);
    } else {
      RootTells(kind, sl, tab, root, b, input, fed, r', e);
      n := e.bits;
    }
    r' := DropBits(b, input, fed, r', e.bits);
  }

  lemma TightStart(b: seq<bool>, fed: nat, r: Reg, tab: seq<Entry>, root: nat)
    requires r.bits < 8 || Needs(tab, root, r.hold) > r.bits
    ensures Tight(b, fed, r, tab, root)
  {
    hide Lsb, Needs;
  }

  /** What a leaf in the root table tells, when its bits are there. */
  lemma RootTells(kind: Kind, sl: seq<nat>, tab: seq<Entry>, root: nat, b: seq<bool>, input: seq<byte>, fed: nat,
                  r: Reg, e: Entry)
    requires Reads(b, input, fed, r) && GoodTable(kind, sl, tab, root) && |tab| >= Pow2(root)
    requires e == tab[Low(r.hold, root)] && e.bits <= r.bits && !(e.op != 0 && e.op < 16) && Tight(b, fed, r, tab, root)
    ensures 0 <= Pos(fed, r) <= |b| && 0 < e.bits && r.bits < e.bits + 8
    ensures Fetched(kind, sl, e, e.bits, b, Pos(fed, r))
  {
    hide Reads, Lsb, Low, High, Pow2, GoodTable, Needs, FindAny, FoundOk, DecodeSym, Fetched, Tight;
    LookupSteps(kind, sl, tab, root, r.hold);
    Tells(kind, sl, tab, root, b, input, fed, r);
  }

  /** What the entry behind a link tells, when its bits are there. */
  lemma LinkTells(kind: Kind, sl: seq<nat>, tab: seq<Entry>, root: nat, b: seq<bool>, input: seq<byte>, fed: nat,
                  r: Reg, last: Entry, e: Entry)
    requires Reads(b, input, fed, r) && GoodTable(kind, sl, tab, root) && |tab| >= Pow2(root)
      && Tight(b, fed, r, tab, root)
    requires last == tab[Low(r.hold, root)] && IsLink(last) && Leads(tab, last, r.hold, e)
      && last.bits + e.bits <= r.bits
    ensures 0 <= Pos(fed, r) <= |b| && 0 < last.bits + e.bits && r.bits < last.bits + e.bits + 8
    ensures Fetched(kind, sl, e, last.bits + e.bits, b, Pos(fed, r))
  {
    hide Reads, Lsb, Low, High, Pow2, GoodTable, Needs, FindAny, FoundOk, DecodeSym, Fetched, Tight, Leads;
    LookupSteps(kind, sl, tab, root, r.hold);
    LeadsTo(tab, last, r.hold, e);
    Tells(kind, sl, tab, root, b, input, fed, r);
  }

  lemma LeadsTo(tab: seq<Entry>, last: Entry, hold: nat, e: Entry)
    requires Leads(tab, last, hold, e)
    ensures var i := last.val + High(Low(hold, last.bits + last.op), last.bits); i < |tab| && e == tab[i]
  {
  }
}
