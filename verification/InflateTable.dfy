/**
 inflate_table: builds the decoding table of a canonical Huffman code in place
 (src/cmd/INIT/ratz.c:1779-2002), with the loops of the C routine.  An increment of
 1 << (bit - 1) is held as bit, so that 0 stands for the increment that was shifted out.
 */
module InflateTable {
  import opened Bits
  import opened Huffman
  import opened TableSpec
  import opened TableProof

  const ENOUGH: nat := 2048
  const MAXD: nat := 592

  method CountLengths(lens: seq<nat>) returns (count: seq<nat>)
    requires ValidLengths(lens)
    ensures |count| == 16 && forall l :: 0 <= l <= MAXBITS ==> count[l] == Count(lens, l)
  {
    count := seq(16, _ => 0);
    var sym := 0;
    while sym < |lens|
      invariant sym <= |lens| && |count| == 16
      invariant forall l :: 0 <= l <= MAXBITS ==> count[l] == |SymsOf(lens, sym, l)|
    {
      count := count[lens[sym] := count[lens[sym]] + 1];
      sym := sym + 1;
    }
  }

  method LengthRange(lens: seq<nat>, count: seq<nat>) returns (min: nat, max: nat)
    requires ValidLengths(lens)
    requires |count| == 16 && forall l :: 0 <= l <= MAXBITS ==> count[l] == Count(lens, l)
    ensures max == 0 <==> forall l :: 1 <= l <= MAXBITS ==> Count(lens, l) == 0
    ensures max > 0 ==> Range(lens, min, max)
  {
    hide Count;
    max := MAXBITS;
    while max >= 1 && count[max] == 0
      invariant max <= MAXBITS && forall l :: max < l <= MAXBITS ==> count[l] == 0
    {
      max := max - 1;
    }
    min := 1;
    while min <= MAXBITS && count[min] == 0
      invariant 1 <= min <= MAXBITS + 1 && forall l :: 1 <= l < min ==> count[l] == 0
    {
      min := min + 1;
    }
  }

  /** The Kraft check: left is what a complete code would still have free, negative as
      soon as some length is over-subscribed. */
  method CodesLeft(lens: seq<nat>, count: seq<nat>) returns (left: int)
    requires |count| == 16 && forall l :: 0 <= l <= MAXBITS ==> count[l] == Count(lens, l)
    ensures left < 0 <==> OverSubscribed(lens)
    ensures left == 0 <==> Complete(lens)
  {
    hide Count, Shl;
    left := 1;
    var len := 1;
    ShlOne(MAXBITS);
    while len <= MAXBITS
      invariant 1 <= len <= MAXBITS + 1 && left >= 0
      invariant Shl(left, MAXBITS - (len - 1)) + Kraft(lens, len - 1) == Pow2(MAXBITS)
    {
      ghost var before := left;
      left := 2 * left;
      Doubling(before, MAXBITS - len);
      left := left - count[len];
      if left < 0 {
        ShlMono(2 * before, count[len], MAXBITS - len);
        KraftMono(lens, len, MAXBITS);
        Pow2Positive(MAXBITS - len);
        return;
      }
      ShlPlus(left, count[len], MAXBITS - len);
      len := len + 1;
    }
    assert Shl(left, 0) == left by { ShlZero(left); }
  }

  lemma ShlZero(x: nat)
    ensures Shl(x, 0) == x
  {
  }

  lemma Doubling(x: nat, n: nat)
    ensures Shl(x, n + 1) == Shl(2 * x, n)
  {
    ShlPlus(x, x, n);
  }

  lemma {:induction false} KraftMono(lens: seq<nat>, m: nat, l: nat)
    requires m <= l <= MAXBITS
    ensures Kraft(lens, m) <= Kraft(lens, l)
    decreases l
  {
    if m < l {
      KraftMono(lens, m, l - 1);
    }
  }

  /** Counting sort of the coded symbols by length, in symbol order within a length. */
  method SortSymbols(lens: seq<nat>, count: seq<nat>, work: array<nat>)
    requires ValidLengths(lens) && |lens| <= work.Length
    requires |count| == 16 && forall l :: 0 <= l <= MAXBITS ==> count[l] == Count(lens, l)
    modifies work
    ensures |Order(lens)| <= |lens| && work[..|Order(lens)|] == Order(lens)
  {
    hide Sorted, SymsOf, Count, Place, Placed;
    SortedSize(lens, MAXBITS);
    var offs := ClassOffsets(lens, count);
    NonePlaced(lens, work[..]);
    var sym := 0;
    while sym < |lens|
      invariant sym <= |lens| && |offs| == 16
      invariant forall l :: 1 <= l <= MAXBITS ==> offs[l] == Place(lens, sym, l)
      invariant Placed(lens, work[..], sym)
    {
      PlaceNext(lens, sym);
      if lens[sym] != 0 {
        PlaceBound(lens, sym);
        ghost var before := work[..];
        work[offs[lens[sym]]] := sym;
        PlacedNext(lens, before, work[..], sym);
        offs := offs[lens[sym] := offs[lens[sym]] + 1];
      } else {
        PlacedSkip(lens, work[..], sym);
      }
      sym := sym + 1;
    }
    PlacedAll(lens, work[..]);
  }

  /** Each length class starts where the shorter ones end. */
  method ClassOffsets(lens: seq<nat>, count: seq<nat>) returns (offs: seq<nat>)
    requires |count| == 16 && forall l :: 0 <= l <= MAXBITS ==> count[l] == Count(lens, l)
    ensures |offs| == 16 && forall l :: 1 <= l <= MAXBITS ==> offs[l] == Place(lens, 0, l)
  {
    hide SymsOf;
    offs := seq(16, _ => 0);
    var len := 1;
    while len < MAXBITS
      invariant 1 <= len <= MAXBITS && |offs| == 16
      invariant forall l :: 1 <= l <= len ==> offs[l] == |Sorted(lens, l - 1)|
    {
      assert |Sorted(lens, len)| == |Sorted(lens, len - 1)| + Count(lens, len);
      offs := offs[len + 1 := offs[len] + count[len]];
      len := len + 1;
    }
    forall l | 1 <= l <= MAXBITS
      ensures offs[l] == Place(lens, 0, l)
    {
      NoSyms(lens, l);
    }
  }

  lemma NoSyms(lens: seq<nat>, l: nat)
    ensures |SymsOf(lens, 0, l)| == 0
  {
  }

  lemma NonePlaced(lens: seq<nat>, work: seq<nat>)
    ensures Placed(lens, work, 0)
  {
  }

  lemma PlacedSkip(lens: seq<nat>, work: seq<nat>, sym: nat)
    requires sym < |lens| && lens[sym] == 0 && Placed(lens, work, sym)
    ensures Placed(lens, work, sym + 1)
  {
    hide Place;
  }

  lemma PlaceNext(lens: seq<nat>, sym: nat)
    requires sym < |lens|
    ensures forall l: nat :: l > 0 ==> Place(lens, sym + 1, l) == Place(lens, sym, l) + if lens[sym] == l then 1 else 0
  {
    hide Sorted;
  }

  /** Where the next symbol of length l goes once the symbols below sym are placed. */
  ghost function Place(lens: seq<nat>, sym: nat, l: nat): nat
    requires sym <= |lens| && l > 0
  {
    |Sorted(lens, l - 1)| + |SymsOf(lens, sym, l)|
  }

  /** The symbols below sym are in their final places. */
  ghost predicate Placed(lens: seq<nat>, work: seq<nat>, sym: nat)
    requires sym <= |lens|
  {
    forall s: nat :: s < sym && 0 < lens[s] <= MAXBITS ==>
      Place(lens, s, lens[s]) < |work| && work[Place(lens, s, lens[s])] == s
  }

  /** Each symbol has its own position in the order. */
  lemma PlaceOrder(lens: seq<nat>, s: nat)
    requires s < |lens| && 0 < lens[s] <= MAXBITS
    ensures Place(lens, s, lens[s]) < |Order(lens)| && Order(lens)[Place(lens, s, lens[s])] == s
  {
    SymsOfRank(lens, s, lens[s]);
    SortedPrefix(lens, lens[s], MAXBITS);
    assert Sorted(lens, lens[s])[Place(lens, s, lens[s])] == s;
  }

  lemma PlaceBound(lens: seq<nat>, s: nat)
    requires s < |lens| && 0 < lens[s] <= MAXBITS
    ensures Place(lens, s, lens[s]) < |Order(lens)| <= |lens|
  {
    PlaceOrder(lens, s);
    SortedSize(lens, MAXBITS);
  }

  lemma PlacedNext(lens: seq<nat>, before: seq<nat>, after: seq<nat>, sym: nat)
    requires sym < |lens| && 0 < lens[sym] <= MAXBITS && Placed(lens, before, sym)
    requires Place(lens, sym, lens[sym]) < |before| && after == before[Place(lens, sym, lens[sym]) := sym]
    ensures Placed(lens, after, sym + 1)
  {
    hide Place;
    forall s: nat | s < sym + 1 && 0 < lens[s] <= MAXBITS
      ensures Place(lens, s, lens[s]) < |after| && after[Place(lens, s, lens[s])] == s
    {
      PlaceOrder(lens, s);
      PlaceOrder(lens, sym);
    }
  }

  lemma PlacedAll(lens: seq<nat>, work: seq<nat>)
    requires ValidLengths(lens) && Placed(lens, work, |lens|) && |Order(lens)| <= |work|
    ensures work[..|Order(lens)|] == Order(lens)
  {
    hide Sorted, SymsOf;
    forall k | 0 <= k < |Order(lens)|
      ensures work[k] == Order(lens)[k]
    {
      OrderRank(lens, k);
      assert Place(lens, Order(lens)[k], lens[Order(lens)[k]]) == k;
    }
  }

  /** Copies e to the indices of the table of width curr at next whose low w bits are h. */
  method Replicate(table: array<Entry>, base: nat, next: nat, curr: nat, w: nat, h: nat, e: Entry)
    requires w <= curr && h < Pow2(w) && base + next + Pow2(curr) <= table.Length
    modifies table
    ensures table[..base] == old(table[..base])
    ensures Replicated(old(table[base..]), table[base..], next, curr, w, h, e)
  {
    hide Replicated, Low, Shl, Pow2;
    ghost var m := Pow2(curr - w);
    ghost var tab := table[base..];
    var incr := Shl(1, w);
    var fill := Shl(1, curr);
    ShlOne(w);
    ShlOne(curr);
    ShlPow2(curr - w, w);
    assert curr - w + w == curr;
    Untouched(tab, next, curr, w, h, e);
    while fill != 0
      invariant fill == Shl(m, w) <= Pow2(curr)
      invariant table[..base] == old(table[..base])
      invariant table.Length == base + |tab| && ReplicatedFrom(tab, table[base..], next, curr, w, h, e, m)
      decreases m
    {
      ShlOne(w);
      assert m > 0;
      Last(m - 1, w);
      fill := fill - incr;
      ghost var before := table[base..];
      table[base + next + h + fill] := e;
      assert table[base..] == before[next + h + fill := e];
      ReplicatedStep(tab, before, table[base..], next, curr, w, h, e, m - 1);
      m := m - 1;
    }
    AllReplicated(tab, table[base..], next, curr, w, h, e, m);
  }

  lemma Last(m: nat, w: nat)
    ensures Shl(m + 1, w) == Shl(m, w) + Pow2(w)
  {
    ShlPlus(m, 1, w);
    ShlOne(w);
  }

  /** Replication has been done from the m-th repetition of the code bits on. */
  ghost predicate ReplicatedFrom(tab: seq<Entry>, tab': seq<Entry>, next: nat, curr: nat, w: nat, h: nat, e: Entry,
                                 m: nat) {
    && |tab'| == |tab|
    && forall i :: 0 <= i < |tab| ==>
         tab'[i] == if next <= i < next + Pow2(curr) && High(i - next, w) >= m && Low(i - next, w) == h then e
           else tab[i]
  }

  lemma Untouched(tab: seq<Entry>, next: nat, curr: nat, w: nat, h: nat, e: Entry)
    requires w <= curr
    ensures ReplicatedFrom(tab, tab, next, curr, w, h, e, Pow2(curr - w))
  {
    hide Low, Shl;
    forall i: nat | i < Pow2(curr)
      ensures High(i, w) < Pow2(curr - w)
    {
      LowHigh(i, w);
      ShlPow2(curr - w, w);
      assert curr - w + w == curr;
      ShlMono(Pow2(curr - w), High(i, w), w);
    }
  }

  lemma ReplicatedStep(tab: seq<Entry>, before: seq<Entry>, after: seq<Entry>, next: nat, curr: nat, w: nat, h: nat,
                       e: Entry, m: nat)
    requires h < Pow2(w) && next + h + Shl(m, w) < next + Pow2(curr) <= |tab|
    requires ReplicatedFrom(tab, before, next, curr, w, h, e, m + 1)
    requires after == before[next + h + Shl(m, w) := e]
    ensures ReplicatedFrom(tab, after, next, curr, w, h, e, m)
  {
    hide Low, High, Shl, Pow2;
    Join(h, m, w);
    forall i | 0 <= i < |tab|
      ensures after[i] == if next <= i < next + Pow2(curr) && High(i - next, w) >= m && Low(i - next, w) == h then e
        else tab[i]
    {
      if next <= i {
        LowHigh(i - next, w);
      }
    }
  }

  lemma AllReplicated(tab: seq<Entry>, tab': seq<Entry>, next: nat, curr: nat, w: nat, h: nat, e: Entry, m: nat)
    requires ReplicatedFrom(tab, tab', next, curr, w, h, e, m) && Shl(m, w) == 0
    ensures Replicated(tab, tab', next, curr, w, h, e)
  {
    hide Low, High, Shl, Pow2;
    if m > 0 {
      ShlMono(0, m, w);
      Pow2Positive(w);
    }
  }

  /** Adds one to a code of len bits that is held with its bits reversed. */
  method NextHuff(huff: nat, len: nat) returns (r: nat)
    requires 1 <= len <= MAXBITS && huff < Pow2(len)
    ensures r < Pow2(len)
    ensures Rev(len, huff) + 1 < Pow2(len) ==> Rev(len, r) == Rev(len, huff) + 1
    ensures Rev(len, huff) + 1 == Pow2(len) ==> r == 0
  {
    hide Low, High, Shl, Pow2, Rev;
    var bit := len;
    LowSmall(huff, len);
    ghost var code := Rev(len, huff);
    RevStart(len, huff);
    while bit > 0 && High(huff, bit - 1) % 2 == 1
      invariant bit <= len
      invariant code + 1 == Shl(Rev(bit, huff) + 1, len - bit)
    {
      CarryOn(huff, bit, len - bit);
      bit := bit - 1;
    }
    if bit != 0 {
      r := Low(huff, bit - 1) + Pow2(bit - 1);
      CarryStops(huff, bit, r, len);
    } else {
      r := 0;
      CarryOut(huff, len);
    }
  }

  lemma RevStart(len: nat, huff: nat)
    ensures Rev(len, huff) + 1 == Shl(Rev(len, huff) + 1, 0)
  {
  }

  lemma TopBit(huff: nat, bit: nat)
    requires bit > 0
    ensures Low(huff, bit) == Low(huff, bit - 1) + Shl(High(huff, bit - 1) % 2, bit - 1)
    ensures Rev(bit, huff) == 2 * Rev(bit - 1, huff) + High(huff, bit - 1) % 2
  {
    hide Shl, Rev, Pow2;
    HighLow(huff, bit - 1, 1);
    assert bit - 1 + 1 == bit;
    assert Low(High(huff, bit - 1), 1) == High(huff, bit - 1) % 2;
    RevTop(bit - 1, Low(huff, bit - 1), High(huff, bit - 1) % 2);
    RevLow(bit, huff);
    RevLow(bit - 1, huff);
  }

  lemma CarryOn(huff: nat, bit: nat, n: nat)
    requires bit > 0 && High(huff, bit - 1) % 2 == 1
    ensures Shl(Rev(bit, huff) + 1, n) == Shl(Rev(bit - 1, huff) + 1, n + 1)
  {
    TopBit(huff, bit);
    Doubling(Rev(bit - 1, huff) + 1, n);
  }

  lemma CarryStops(huff: nat, bit: nat, r: nat, len: nat)
    requires 0 < bit <= len && High(huff, bit - 1) % 2 == 0
    requires r == Low(huff, bit - 1) + Pow2(bit - 1)
    ensures r < Pow2(len) && Rev(len, r) == Shl(Rev(bit, huff) + 1, len - bit)
  {
    hide Low, High, Rev;
    TopBit(huff, bit);
    ShlOne(bit - 1);
    RevTop(bit - 1, Low(huff, bit - 1), 1);
    RevLow(bit - 1, huff);
    assert r < Pow2(bit);
    LowSmall(r, bit);
    RevSplit(bit, len - bit, r);
    RevZero(len - bit);
    assert bit + (len - bit) == len;
    Pow2Mono(bit, len);
  }

  lemma CarryOut(huff: nat, len: nat)
    ensures Shl(Rev(0, huff) + 1, len) == Pow2(len)
  {
    ShlOne(len);
  }

  /** The width of the sub-table for the block that starts with code k, found by looking
      ahead at the counts of the codes not entered yet. */
  method LookAhead(ghost j: Job, ghost k: nat, count: seq<nat>, len: nat, drop: nat, max: nat) returns (curr: nat)
    requires ValidJob(j) && Complete(j.lens) && k < |Order(j.lens)| && len == j.lens[Order(j.lens)[k]]
    requires 0 < drop == j.root < len <= max == j.max
    requires |count| == 16 && CountsLeft(j.lens, count, k, len)
    requires Kraft(j.lens, max) == Pow2(MAXBITS)
    requires Start(j.lens, k) + Pow2(MAXBITS - j.root) <= Pow2(MAXBITS)
    ensures j.root + curr <= MAXBITS && Sized(j, k, curr)
  {
    hide Kraft, Start, Shl, Pow2, Count, Order;
    ghost var end := Start(j.lens, k) + Pow2(MAXBITS - j.root);
    curr := len - drop;
    var left: int := Shl(1, curr);
    ShlOne(curr);
    ShlPow2(curr, MAXBITS - len);
    assert curr + (MAXBITS - len) == MAXBITS - j.root;
    Pow2Positive(curr);
    while curr + drop < max
      invariant len <= curr + drop <= max && left > 0
      invariant Shl(left, MAXBITS - (curr + drop)) + Floor(j.lens, k, len, curr + drop) == end
      invariant curr + drop > len ==> Kraft(j.lens, curr + drop - 1) < end
    {
      ghost var l := curr + drop;
      FloorNext(j.lens, k, count, len, l);
      ShlMono(left, count[l], MAXBITS - l);
      ShlMono(count[l], left, MAXBITS - l);
      ghost var before := left;
      left := left - count[curr + drop];
      if left <= 0 {
        break;
      }
      ShlPlus(left, count[l], MAXBITS - l);
      Pow2Positive(MAXBITS - l);
      curr := curr + 1;
      Doubling(left, MAXBITS - (l + 1));
      left := 2 * left;
    }
  }

  /** What the codes shorter than l of the current block have filled so far. */
  ghost function Floor(lens: seq<nat>, k: nat, len: nat, l: nat): nat
    requires k <= |Order(lens)| && 0 < l <= MAXBITS
  {
    if l == len then Start(lens, k) else Kraft(lens, l - 1)
  }

  /** The counts of the codes from position k, of length len, on. */
  ghost predicate CountsLeft(lens: seq<nat>, count: seq<nat>, k: nat, len: nat)
    requires |count| == 16
  {
    && (forall l :: len < l <= MAXBITS ==> count[l] == Count(lens, l))
    && (len <= MAXBITS ==> count[len] + k == |Sorted(lens, len)|)
  }

  lemma FloorNext(lens: seq<nat>, k: nat, count: seq<nat>, len: nat, l: nat)
    requires k < |Order(lens)| && len == lens[Order(lens)[k]] && len <= l <= MAXBITS
    requires |count| == 16 && CountsLeft(lens, count, k, len)
    ensures Floor(lens, k, len, l) + Shl(count[l], MAXBITS - l) == Kraft(lens, l)
  {
    hide Shl, Start, SymsOf, Sorted, CodeOf, NextCode;
    if l == len {
      ThisClass(lens, k, count[len], len);
    }
  }

  lemma ThisClass(lens: seq<nat>, k: nat, rest: nat, len: nat)
    requires k < |Order(lens)| && len == lens[Order(lens)[k]] && rest + k == |Sorted(lens, len)|
    ensures Start(lens, k) + Shl(rest, MAXBITS - len) == Kraft(lens, len)
  {
    hide Shl, Start, SymsOf;
    OrderClass(lens, k, len);
    var r := k - |Sorted(lens, len - 1)|;
    StartKraft(lens, len - 1);
    StartKraft(lens, len);
    StartInClass(lens, len, r);
    ShlPlus(r, rest, MAXBITS - len);
  }

  /** Fills in the entry of the code at position k and advances the reversed code. */
  method EnterCode(ghost j: Job, ghost b: Sub, ghost k: nat, kind: Kind, table: array<Entry>, base: nat, sym: nat,
                   len: nat, huff: nat, drop: nat, next: nat, curr: nat) returns (huff': nat)
    requires base <= table.Length && Holds(j, table[base..], k, b) && CodeAt(j, k, len, huff)
    requires b.first < |Order(j.lens)| && Current(j, k, b)
    requires kind == j.kind && sym == Order(j.lens)[k] && sym < Limit(kind)
    requires drop == b.drop && next == b.next && curr == b.curr
    modifies table
    ensures table[..base] == old(table[..base])
    ensures Holds(j, table[base..], k + 1, b)
    ensures k + 1 < |Order(j.lens)| ==> CodeAt(j, k + 1, j.lens[Order(j.lens)[k + 1]], huff')
    ensures Start(j.lens, k + 1) == Pow2(MAXBITS) ==> huff' == 0
    ensures huff' < Pow2(len) && (len == 1 && k == 0 ==> huff' == 1)
  {
    hide Entered, Links, RootCodes, Sized, Paid, Order, Start, CodeOf, Rev, Low, High, Shl, Pow2, Kraft, Replicated,
      Leaf;
    CodeRoom(j, table[base..], k, b, len, huff);
    Replicate(table, base, next, curr, len - drop, High(huff, drop), Leaf(kind, sym, len - drop));
    HoldsNext(j, old(table[base..]), table[base..], k, b, len, huff);
    huff' := NextHuff(huff, len);
    HuffNext(j.lens, k, sym, len, huff, huff');
  }

  lemma CodeRoom(j: Job, tab: seq<Entry>, k: nat, b: Sub, len: nat, huff: nat)
    requires Holds(j, tab, k, b) && CodeAt(j, k, len, huff)
    requires b.first < |Order(j.lens)| && Current(j, k, b)
    ensures b.drop < len <= b.drop + b.curr && 1 <= len <= MAXBITS
    ensures High(huff, b.drop) < Pow2(len - b.drop) && huff < Pow2(len)
  {
    hide Entered, Links, RootCodes, Sized, Paid, Start, CodeOf, Rev, Low, Shl, Kraft, Sorted;
    HuffStart(j.lens, k, Order(j.lens)[k], huff);
    if b.drop > 0 {
      CurrentFits(j, tab, k, b, len, huff);
    }
    HighBound(huff, b.drop, len - b.drop);
  }

  lemma HighBound(x: nat, m: nat, n: nat)
    requires x < Pow2(m + n)
    ensures High(x, m) < Pow2(n)
  {
    hide High, Low, Shl, Pow2;
    LowHigh(x, m);
    ShlPow2(n, m);
    assert n + m == m + n;
    ShlMono(Pow2(n), High(x, m), m);
  }

  /** The incremented reversed code is that of the next code in table order. */
  lemma HuffNext(lens: seq<nat>, k: nat, s: nat, len: nat, huff: nat, huff': nat)
    requires k < |Order(lens)| && s == Order(lens)[k] && len == lens[s] && !OverSubscribed(lens)
    requires huff == Rev(len, CodeOf(lens, s)) && huff' < Pow2(len)
    requires Rev(len, huff) + 1 < Pow2(len) ==> Rev(len, huff') == Rev(len, huff) + 1
    requires Rev(len, huff) + 1 == Pow2(len) ==> huff' == 0
    ensures k + 1 < |Order(lens)| ==> var s' := Order(lens)[k + 1]; huff' == Rev(lens[s'], CodeOf(lens, s'))
    ensures Start(lens, k + 1) == Pow2(MAXBITS) ==> huff' == 0
    ensures len == 1 && k == 0 ==> huff' == 1
  {
    hide Sorted, Kraft, Shl, Rev, CodeOf, Start, Order, Pow2;
    var c := CodeOf(lens, s);
    HuffCode(lens, k, s, len, huff);
    if len == 1 && k == 0 {
      FirstCode(lens, s, c, huff');
    }
    if c + 1 < Pow2(len) {
      NotLast(lens, k, s, len, huff');
    } else if k + 1 < |Order(lens)| {
      LastIsLast(lens, k, s, len);
    }
  }

  lemma HuffCode(lens: seq<nat>, k: nat, s: nat, len: nat, huff: nat)
    requires k < |Order(lens)| && s == Order(lens)[k] && len == lens[s] && !OverSubscribed(lens)
    requires huff == Rev(len, CodeOf(lens, s))
    ensures Rev(len, huff) == CodeOf(lens, s) < Pow2(len)
    ensures Shl(CodeOf(lens, s) + 1, MAXBITS - len) == Start(lens, k + 1)
  {
    hide Sorted, Kraft, Shl, Rev, CodeOf;
    CodeFits(lens, k);
    RevRev(len, CodeOf(lens, s));
    CodeStart(lens, k);
    ShlPlus(CodeOf(lens, s), 1, MAXBITS - len);
    ShlOne(MAXBITS - len);
  }

  lemma NotLast(lens: seq<nat>, k: nat, s: nat, len: nat, huff': nat)
    requires k < |Order(lens)| && s == Order(lens)[k] && len == lens[s] && !OverSubscribed(lens)
    requires Shl(CodeOf(lens, s) + 1, MAXBITS - len) == Start(lens, k + 1)
    requires CodeOf(lens, s) + 1 < Pow2(len) && huff' < Pow2(len) && Rev(len, huff') == CodeOf(lens, s) + 1
    ensures Start(lens, k + 1) < Pow2(MAXBITS)
    ensures k + 1 < |Order(lens)| ==> var s' := Order(lens)[k + 1]; huff' == Rev(lens[s'], CodeOf(lens, s'))
  {
    hide Sorted, Kraft, Shl, Rev, CodeOf, Start;
    var c, w := CodeOf(lens, s), MAXBITS - len;
    ShlPow2(len, w);
    ShlMono(c + 1, Pow2(len), w);
    Pow2Positive(w);
    assert w + len == MAXBITS == len + w;
    RevRev(len, huff');
    RevShifted(w, len, c + 1);
    if k + 1 < |Order(lens)| {
      NextIsNext(lens, k + 1, huff');
    }
  }

  lemma LastIsLast(lens: seq<nat>, k: nat, s: nat, len: nat)
    requires k + 1 < |Order(lens)| && s == Order(lens)[k] && len == lens[s] && !OverSubscribed(lens)
    requires Shl(CodeOf(lens, s) + 1, MAXBITS - len) == Start(lens, k + 1)
    ensures CodeOf(lens, s) + 1 < Pow2(len)
  {
    hide Sorted, Kraft, Shl, CodeOf, Start;
    var c, w := CodeOf(lens, s), MAXBITS - len;
    CodeFits(lens, k + 1);
    StartMono(lens, k + 1, k + 2);
    ShlPow2(len, w);
    assert len + w == MAXBITS;
    ShlMono(Pow2(len), c + 1, w);
  }

  lemma FirstCode(lens: seq<nat>, s: nat, c: nat, huff: nat)
    requires |Order(lens)| > 0 && s == Order(lens)[0] && lens[s] == 1 && c == CodeOf(lens, s) && huff < Pow2(1)
    ensures c == 0 && c + 1 < Pow2(1)
    ensures Rev(1, huff) == c + 1 ==> huff == 1
  {
    hide Sorted, NextCode, SymsOf, Shl;
    CodeStart(lens, 0);
    ShlMono(0, c, MAXBITS - 1);
    Pow2Positive(MAXBITS - 1);
    assert Start(lens, 0) == 0;
    RevZero(1);
    assert Pow2(1) == 2;
  }

  lemma NextIsNext(lens: seq<nat>, k: nat, huff: nat)
    requires k < |Order(lens)| && !OverSubscribed(lens) && huff == Rev(MAXBITS, Start(lens, k))
    ensures var s := Order(lens)[k]; huff == Rev(lens[s], CodeOf(lens, s))
  {
    hide Sorted, Kraft, Shl, Rev, CodeOf, Start;
    var s := Order(lens)[k];
    CodeStart(lens, k);
    RevShifted(MAXBITS - lens[s], lens[s], CodeOf(lens, s));
    assert MAXBITS - lens[s] + lens[s] == MAXBITS;
  }

  // ------------------------------------------------------------ the whole build

  /** The lengths beyond max are unused, so everything is said by those up to max. */
  lemma {:induction false} NoneBeyond(lens: seq<nat>, max: nat, l: nat)
    requires max <= l <= MAXBITS && forall i :: max < i <= MAXBITS ==> Count(lens, i) == 0
    ensures |Sorted(lens, l)| == |Sorted(lens, max)| && Kraft(lens, l) == Kraft(lens, max)
    decreases l
  {
    hide SymsOf, Sorted, Count;
    if max < l {
      NoneBeyond(lens, max, l - 1);
      SortedGrows(lens, l);
      ShlOne(MAXBITS - l);
    }
  }

  lemma {:induction false} NoneBefore(lens: seq<nat>, l: nat)
    requires l <= MAXBITS && forall i :: 1 <= i <= l ==> Count(lens, i) == 0
    ensures |Sorted(lens, l)| == 0
    decreases l
  {
    hide Count;
    if 0 < l {
      NoneBefore(lens, l - 1);
      SortedGrows(lens, l);
    }
  }

  /** The first code has the shortest length and the last one the longest. */
  lemma Extremes(lens: seq<nat>, min: nat, max: nat)
    requires Range(lens, min, max)
    ensures 0 < |Order(lens)| && lens[Order(lens)[0]] == min
    ensures |Sorted(lens, max)| == |Order(lens)| && Kraft(lens, max) == Kraft(lens, MAXBITS)
    ensures forall k :: 0 <= k < |Order(lens)| ==> lens[Order(lens)[k]] <= max
  {
    hide SymsOf, Count, Sorted, Kraft;
    NoneBeyond(lens, max, MAXBITS);
    NoneBefore(lens, min - 1);
    SortedPrefix(lens, min, MAXBITS);
    SortedGrows(lens, min);
    OrderClass(lens, 0, min);
    forall k | 0 <= k < |Order(lens)|
      ensures lens[Order(lens)[k]] <= max
    {
      OrderClass(lens, k, max);
    }
  }

  lemma SortedGrows(lens: seq<nat>, l: nat)
    requires 0 < l
    ensures |Sorted(lens, l)| == |Sorted(lens, l - 1)| + Count(lens, l)
  {
    hide SymsOf;
  }

  lemma {:induction false} EmptySyms(lens: seq<nat>, n: nat, l: nat)
    requires n <= |lens| && Empty(lens) && l > 0
    ensures |SymsOf(lens, n, l)| == 0
  {
    if n > 0 {
      EmptySyms(lens, n - 1, l);
    }
  }

  /** Empty sets of lengths are those without counts. */
  lemma EmptyCounts(lens: seq<nat>)
    requires ValidLengths(lens)
    ensures Empty(lens) <==> forall l :: 1 <= l <= MAXBITS ==> Count(lens, l) == 0
  {
    hide Sorted;
    if forall l :: 1 <= l <= MAXBITS ==> Count(lens, l) == 0 {
      forall i | 0 <= i < |lens|
        ensures lens[i] == 0
      {
        if lens[i] > 0 {
          SymsOfRank(lens, i, lens[i]);
        }
      }
    }
    if Empty(lens) {
      forall l | 1 <= l <= MAXBITS
        ensures Count(lens, l) == 0
      {
        EmptySyms(lens, |lens|, l);
      }
    }
  }

  lemma LengthsInRange(lens: seq<nat>, min: nat, max: nat)
    requires ValidLengths(lens) && Range(lens, min, max)
    ensures forall i :: 0 <= i < |lens| ==> lens[i] <= max
  {
    hide Sorted;
    forall i | 0 <= i < |lens|
      ensures lens[i] <= max
    {
      if lens[i] > max {
        SymsOfRank(lens, i, lens[i]);
      }
    }
  }

  /** The lengths are all at most one exactly when the longest is. */
  lemma LoneCounts(lens: seq<nat>, min: nat, max: nat)
    requires ValidLengths(lens) && Range(lens, min, max)
    ensures max == 1 <==> forall i :: 0 <= i < |lens| ==> lens[i] <= 1
    ensures max == 1 && Kraft(lens, MAXBITS) < Pow2(MAXBITS) ==> |Order(lens)| == 1
    ensures !Empty(lens)
  {
    hide Sorted, Kraft;
    var r := SymsOf(lens, |lens|, max);
    assert lens[r[0]] == max;
    if max == 1 {
      forall i | 0 <= i < |lens|
        ensures lens[i] <= 1
      {
        if lens[i] > 1 {
          SymsOfRank(lens, i, lens[i]);
        }
      }
      LoneKraft(lens);
      Extremes(lens, min, max);
    }
  }

  lemma LoneKraft(lens: seq<nat>)
    ensures Kraft(lens, 1) == Count(lens, 1) * Pow2(14) && |Sorted(lens, 1)| == Count(lens, 1)
    ensures Count(lens, 1) >= 2 ==> Kraft(lens, 1) >= Pow2(MAXBITS)
  {
    hide SymsOf, Shl;
    MaskAndShift(Count(lens, 1), 14);
    assert |Sorted(lens, 0)| == 0 && Kraft(lens, 0) == 0;
    assert Pow2(15) == 2 * Pow2(14);
  }

  /** The decision of inflate_table about a nonempty set of lengths. */
  lemma Decision(kind: Kind, lens: seq<nat>, min: nat, max: nat, left: int)
    requires ValidLengths(lens) && Range(lens, min, max)
    requires left < 0 <==> OverSubscribed(lens)
    requires left == 0 <==> Complete(lens)
    ensures left < 0 || (left > 0 && (kind == CODES || max != 1)) <==> !Acceptable(kind, lens)
  {
    hide Kraft, Sorted, Count, Pow2;
    LoneCounts(lens, min, max);
  }

  /** Enough entries for the table of these lengths. */
  ghost predicate HasRoom(lens: seq<nat>, request: nat, space: nat) {
    && (Empty(lens) ==> 2 <= space)
    && forall min, max :: Range(lens, min, max) ==> Room(Root(request, min, max), max, |Order(lens)|) <= space
  }

  lemma RoomForRoot(lens: seq<nat>, request: nat, min: nat, max: nat, space: nat)
    requires Range(lens, min, max) && HasRoom(lens, request, space)
    ensures Pow2(Root(request, min, max)) <= space
  {
    hide Sorted, Count;
    var root := Root(request, min, max);
    assert Room(root, max, |Order(lens)|) <= space;
    if root < max {
      Pow2Mono(2, 16 - root);
    }
  }

  /** Before any code is entered the root table is being filled. */
  lemma HoldsAtStart(j: Job, tab: seq<Entry>, min: nat)
    requires ValidJob(j) && Range(j.lens, min, j.max) && min <= j.root && Pow2(j.root) <= |tab|
    ensures 0 < |Order(j.lens)|
    ensures Holds(j, tab, 0, Sub(0, -1, 0, j.root, Pow2(j.root), 0))
      && Current(j, 0, Sub(0, -1, 0, j.root, Pow2(j.root), 0))
    ensures CodeAt(j, 0, min, 0)
  {
    hide Sorted, Kraft, Rev, Shl, Pow2;
    Extremes(j.lens, min, j.max);
    assert Start(j.lens, 0) == 0;
    HuffAtStart(j.lens);
  }

  lemma HuffAtStart(lens: seq<nat>)
    requires 0 < |Order(lens)| && !OverSubscribed(lens)
    ensures var s := Order(lens)[0]; Rev(lens[s], CodeOf(lens, s)) == 0
  {
    hide Sorted, Kraft, Rev, Shl, CodeOf, Pow2;
    assert Start(lens, 0) == 0;
    RevZero(MAXBITS);
    NextIsNext(lens, 0, 0);
  }

  /** Moving on to the code at position k + 1, or past the last one. */
  lemma CountStep(lens: seq<nat>, count: seq<nat>, k: nat, min: nat, max: nat, len: nat)
    requires Range(lens, min, max) && k < |Order(lens)| && len == lens[Order(lens)[k]]
    requires |count| == 16 && CountsLeft(lens, count, k, len)
    ensures count[len] > 0 && len <= max
    ensures count[len] > 1 ==> k + 1 < |Order(lens)| && lens[Order(lens)[k + 1]] == len
    ensures count[len] == 1 ==> (len == max <==> k + 1 == |Order(lens)|)
    ensures k + 1 < |Order(lens)| ==>
              CountsLeft(lens, count[len := count[len] - 1], k + 1, lens[Order(lens)[k + 1]])
  {
    hide SymsOf, Count, Sorted;
    Extremes(lens, min, max);
    OrderClass(lens, k, len);
    if count[len] > 1 {
      SortedPrefix(lens, len, MAXBITS);
      OrderClass(lens, k + 1, len);
    } else {
      SortedGrows(lens, max);
      if len < max {
        SortedPrefix(lens, len, max - 1);
        CountPositive(lens, max);
      }
      if k + 1 < |Order(lens)| {
        var len' := lens[Order(lens)[k + 1]];
        OrderClass(lens, k + 1, len);
        OrderClass(lens, k + 1, len');
        SortedPrefix(lens, len, len' - 1);
      }
    }
  }

  lemma CountPositive(lens: seq<nat>, max: nat)
    requires Count(lens, max) > 0
    ensures |SymsOf(lens, |lens|, max)| > 0
  {
  }

  lemma EmptyRoom(kind: Kind, lens: seq<nat>, request: nat)
    requires Empty(lens)
    ensures Acceptable(kind, lens) && !(exists min, max :: Range(lens, min, max))
    ensures forall n :: HasRoom(lens, request, n) <==> 2 <= n
  {
    forall min, max
      ensures !Range(lens, min, max)
    {
      if max > 0 {
        EmptySyms(lens, |lens|, max);
      }
    }
  }

  lemma EmptyTable(kind: Kind, lens: seq<nat>, tab: seq<Entry>)
    requires Empty(lens) && tab == [INVALID, INVALID]
    ensures TableOk(kind, lens, tab, 1)
  {
    assert Pow2(1) == 2;
  }

  /** The code length, root index and space facts that hold while codes are entered. */
  ghost predicate Filling(j: Job, lens: seq<nat>, count: seq<nat>, tab: seq<Entry>, k: nat, len: nat, huff: nat,
                          b: Sub) {
    && lens == j.lens && Holds(j, tab, k, b) && CodeAt(j, k, len, huff)
    && b.first < |Order(lens)| && k < |Order(lens)| && ValidJob(j) && Current(j, k, b)
    && |count| == 16 && CountsLeft(lens, count, k, len)
  }

  lemma StartFill(j: Job, request: nat, min: nat, tab: seq<Entry>, count: seq<nat>)
    requires ValidLengths(j.lens) && |j.lens| <= Limit(j.kind) && !OverSubscribed(j.lens)
    requires Range(j.lens, min, j.max) && 1 <= request <= MAXBITS && j.root == Root(request, min, j.max)
    requires |count| == 16 && forall l :: 0 <= l <= MAXBITS ==> count[l] == Count(j.lens, l)
    requires HasRoom(j.lens, request, |tab|)
    ensures forall n: nat :: HasRoom(j.lens, request, n) ==> Pow2(j.root) <= n
    ensures Pow2(j.root) <= |tab|
    ensures Filling(j, j.lens, count, tab, 0, min, 0, Sub(0, -1, 0, j.root, Pow2(j.root), 0))
  {
    hide Sorted, Kraft, Count, Pow2, Holds, HasRoom, Start;
    forall n: nat | HasRoom(j.lens, request, n)
      ensures Pow2(j.root) <= n
    {
      RoomForRoot(j.lens, request, min, j.max, n);
    }
    HoldsAtStart(j, tab, min);
    NoneBefore(j.lens, min - 1);
    SortedGrows(j.lens, min);
  }

  /** What the loop relies on at its head. */
  lemma FillingFacts(j: Job, count: seq<nat>, tab: seq<Entry>, k: nat, len: nat, huff: nat, b: Sub, work: seq<nat>)
    requires Filling(j, j.lens, count, tab, k, len, huff, b)
    requires |Order(j.lens)| <= |work| && work[..|Order(j.lens)|] == Order(j.lens)
    ensures k < |Order(j.lens)| && work[k] == Order(j.lens)[k] < Limit(j.kind)
    ensures len == j.lens[Order(j.lens)[k]]
    ensures b.drop < len
  {
    hide Entered, Links, RootCodes, Sized, Paid, Start, CodeOf, Rev, Low, Shl, Kraft, Sorted, Pow2;
    CodeRoom(j, tab, k, b, len, huff);
    assert work[..|Order(j.lens)|][k] == work[k];
  }

  /** What opening a sub-table relies on. */
  lemma OpenFacts(j: Job, tab: seq<Entry>, k: nat, b: Sub, len: nat, huff: nat, min: nat)
    requires Holds(j, tab, k, b) && CodeAt(j, k, len, huff) && Range(j.lens, min, j.max)
    requires len > j.root && Low(huff, j.root) != b.low && (Complete(j.lens) || j.max == 1)
    ensures Complete(j.lens) && ValidJob(j) && k < |Order(j.lens)| && len == j.lens[Order(j.lens)[k]] && len <= j.max
    ensures Kraft(j.lens, j.max) == Pow2(MAXBITS)
    ensures Start(j.lens, k) + Pow2(MAXBITS - j.root) <= Pow2(MAXBITS)
    ensures b.used == b.next + Pow2(b.curr) && (b.drop == 0 || b.drop == j.root)
    ensures Low(huff, j.root) < |tab|
  {
    hide Entered, Links, RootCodes, Sized, Paid, Start, CodeOf, Rev, Low, Shl, Kraft, Sorted, Pow2, Count;
    LeavesBlock(j, tab, k, b, len, huff);
    Extremes(j.lens, min, j.max);
    var low, w := Low(huff, j.root), MAXBITS - j.root;
    SameRoot(j.root, low, low);
    ShlMono(Rev(j.root, low), Pow2(j.root), w);
    ShlPow2(j.root, w);
    assert j.root + w == MAXBITS;
  }

  lemma RoomIsNeeded(j: Job, request: nat, min: nat, amount: nat)
    requires Range(j.lens, min, j.max) && j.root == Root(request, min, j.max)
    requires amount <= Room(j.root, j.max, |Order(j.lens)|)
    ensures forall n: nat :: HasRoom(j.lens, request, n) ==> amount <= n
  {
    hide Sorted, Count, Pow2, Room;
  }

  /** A code that needs no new sub-table belongs in the current one. */
  lemma StaysInTable(j: Job, tab: seq<Entry>, k: nat, b: Sub, len: nat, huff: nat)
    requires Holds(j, tab, k, b) && CodeAt(j, k, len, huff) && b.first < |Order(j.lens)|
    requires len <= j.root || Low(huff, j.root) == b.low
    ensures Current(j, k, b)
  {
    hide Entered, Links, RootCodes, Paid, Start, CodeOf, Rev, Low, Shl, Kraft, Sorted, Pow2;
    if b.drop > 0 {
      LengthsAscend(j.lens, b.first, k);
      HuffStart(j.lens, k, Order(j.lens)[k], huff);
      SameRoot(j.root, b.low, huff);
    }
  }

  /** The last code ends at the right edge of a complete code. */
  lemma LastFacts(j: Job, tab: seq<Entry>, b: Sub, min: nat)
    requires Holds(j, tab, |Order(j.lens)|, b) && Range(j.lens, min, j.max)
    ensures Complete(j.lens) ==> Start(j.lens, |Order(j.lens)|) == Pow2(MAXBITS)
    ensures j.max == 1 && !Complete(j.lens) ==> |Order(j.lens)| == 1 && j.lens[Order(j.lens)[0]] == 1
    ensures b.used <= |tab| && min <= j.max
  {
    hide Entered, Links, RootCodes, Paid, Sized, Start, Rev, Kraft, Sorted, Pow2, Count;
    StartKraft(j.lens, MAXBITS);
    LoneCounts(j.lens, min, j.max);
    Extremes(j.lens, min, j.max);
  }

  /** Fills the rest of the table of an incomplete code with invalid code markers. */
  method MarkInvalid(ghost j: Job, ghost b: Sub, table: array<Entry>, base: nat, huff0: nat, len0: nat, drop0: nat,
                     low: int, next0: nat, root: nat)
    requires base <= table.Length && Holds(j, table[base..], |Order(j.lens)|, b) && b.used <= table.Length - base
    requires drop0 == b.drop <= len0 && next0 == b.next && root == j.root
    requires Complete(j.lens) ==> huff0 == 0
    requires !Complete(j.lens) ==> |Order(j.lens)| == 1 && j.lens[Order(j.lens)[0]] == 1
                                   && root == 1 && drop0 == 0 && len0 == 1 && huff0 == 1
    modifies table
    ensures table[..base] == old(table[..base])
    ensures TableOk(j.kind, j.lens, table[base..base + b.used], j.root)
  {
    hide Entered, Links, RootCodes, Sized, Paid, Order, Start, CodeOf, Rev, Low, High, Shl, Pow2, Kraft, TableOk;
    var huff: nat, len: nat := huff0, len0;
    var drop: int, next: int := drop0, next0;
    var e := Entry(64, len - drop, 0);
    ghost var tab := table[base..];
    ghost var lone := !Complete(j.lens);
    LoneSize(j, tab, b);
    while huff != 0
      invariant table[..base] == old(table[..base])
      invariant lone ==> drop == 0 && len == 1 && next == 0 && e == INVALID && huff <= 1
      invariant !lone ==> huff == 0
      invariant drop >= 0 && next >= 0
      invariant table[base..] == if lone && huff == 0 then tab[1 := INVALID] else tab
      decreases huff
    {
      if drop != 0 && Low(huff, root) != low {
        drop, len, next := 0, root, 0;
        e := e.(bits := len);
      }
      LoneHuff();
      table[base + next + High(huff, drop)] := e;
      assert table[base..] == tab[1 := INVALID];
      huff := NextHuff(huff, len);
    }
    assert table[base..][..b.used] == table[base..base + b.used];
    if lone {
      LoneTable(j, tab, table[base..], b);
    } else {
      CompleteTable(j, tab, b);
    }
  }

  lemma LoneSize(j: Job, tab: seq<Entry>, b: Sub)
    requires Holds(j, tab, |Order(j.lens)|, b)
    ensures j.root == 1 && b.drop == 0 ==> |tab| >= 2 && b.next == 0
  {
    hide Entered, Links, RootCodes, Sized, Paid, Order, Start, Kraft;
    assert Pow2(1) == 2;
  }

  lemma LoneHuff()
    ensures Pow2(1) == 2 && High(1, 0) == 1 && Rev(1, 1) + 1 == Pow2(1)
  {
    assert Rev(0, 0) == 0;
  }

  method Fill(kind: Kind, lens: seq<nat>, ghost request: nat, table: array<Entry>, base: nat, work: array<nat>,
              count0: seq<nat>, min: nat, max: nat, root: nat) returns (ret: int, used: nat)
    requires ValidLengths(lens) && |lens| <= Limit(kind) && |Order(lens)| <= work.Length
    requires work[..|Order(lens)|] == Order(lens)
    requires |count0| == 16 && forall l :: 0 <= l <= MAXBITS ==> count0[l] == Count(lens, l)
    requires Range(lens, min, max) && 1 <= request <= MAXBITS && root == Root(request, min, max)
    requires Complete(lens) || (!OverSubscribed(lens) && max == 1)
    requires base <= table.Length && HasRoom(lens, request, table.Length - base)
    modifies table
    ensures table[..base] == old(table[..base])
    ensures ret == 0 || ret == 1
    ensures ret == 0 ==> base + used <= table.Length && TableOk(kind, lens, table[base..base + used], root)
    ensures ret == 0 ==> forall n: nat :: HasRoom(lens, request, n) ==> used <= n
    ensures ret == 1 ==> kind == LENS && forall n: nat :: HasRoom(lens, request, n) ==> n >= ENOUGH - MAXD
  {
    hide SymsOf, Count, Sorted, Kraft, Start, Rev, Low, High, Shl, Pow2, Entered, Links, Sized, Paid, TableOk, HasRoom,
         Holds, CodeAt, Current, CountsLeft, Range, RootCodes;
    ghost var j := Job(kind, lens, root, max);
    ghost var k: nat := 0;
    StartFill(j, request, min, table[base..], count0);
    var count := count0;
    var huff: nat, sym: nat, len: nat := 0, 0, min;
    var next: nat, curr: nat, drop: nat := 0, root, 0;
    var low := -1;
    used := Shl(1, root);
    ShlOne(root);
    if kind == LENS && used >= ENOUGH - MAXD {
      ret := 1;
      return;
    }
    ghost var b := Sub(0, -1, 0, root, used, 0);
    while true
      invariant k == sym && Filling(j, lens, count, table[base..], k, len, huff, b)
      invariant b == Sub(drop, low, next, curr, used, b.first)
      invariant table[..base] == old(table[..base])
      invariant forall n: nat :: HasRoom(lens, request, n) ==> used <= n
      decreases |Order(lens)| - k
    {
      FillingFacts(j, count, table[base..], k, len, huff, b, work[..]);
      huff := EnterCode(j, b, k, kind, table, base, work[sym], len, huff, drop, next, curr);
      CountStep(lens, count, k, min, max, len);
      k := k + 1;
      sym := sym + 1;
      count := count[len := count[len] - 1];
      if count[len] == 0 {
        if len == max {
          break;
        }
        assert work[sym] == Order(lens)[k] by { assert work[..|Order(lens)|][sym] == work[sym]; }
        len := lens[work[sym]];
      }
      if len > root && Low(huff, root) != low {
        OpenFacts(j, table[base..], k, b, len, huff, min);
        if drop == 0 {
          drop := root;
        }
        next := next + Shl(1, curr);
        ShlOne(curr);
        curr := LookAhead(j, k, count, len, drop, max);
        ShlOne(curr);
        OpenRoom(j, table[base..], k, b, len, huff, curr);
        RoomIsNeeded(j, request, min, b.used + Pow2(curr));
        used := used + Shl(1, curr);
        if kind == LENS && used >= ENOUGH - MAXD {
          ret := 1;
          return;
        }
        low := Low(huff, root);
        ghost var tab := table[base..];
        table[base + low] := Entry(curr, root, next);
        assert table[base..] == tab[low := Entry(curr, root, next)];
        ghost var b' := Sub(drop, low, next, curr, used, k);
        HoldsOpened(j, tab, table[base..], k, b, b', len, huff);
        b := b';
      } else {
        StaysInTable(j, table[base..], k, b, len, huff);
      }
    }
    LastFacts(j, table[base..], b, min);
    MarkInvalid(j, b, table, base, huff, len, drop, low, next, root);
    ret := 0;
  }

  method Build(kind: Kind, lens: seq<nat>, request: nat, table: array<Entry>, base: nat, work: array<nat>)
    returns (ret: int, used: nat, root: nat)
    requires ValidLengths(lens) && |lens| <= Limit(kind) && |lens| <= work.Length
    requires 1 <= request <= MAXBITS && base <= table.Length
    requires Acceptable(kind, lens) ==> HasRoom(lens, request, table.Length - base)
    modifies table, work
    ensures table[..base] == old(table[..base])
    ensures ret == 0 || ret == -1 || ret == 1
    ensures ret == -1 <==> !Acceptable(kind, lens)
    ensures ret == 0 ==> base + used <= table.Length && TableOk(kind, lens, table[base..base + used], root)
    ensures ret == 0 ==> forall n: nat :: HasRoom(lens, request, n) ==> used <= n
    ensures ret == 0 ==> forall i :: 0 <= i < |lens| && lens[i] <= request ==> lens[i] <= root
    ensures ret == 1 ==> kind == LENS && forall n: nat :: HasRoom(lens, request, n) ==> n >= ENOUGH - MAXD
  {
    hide SymsOf, Count, Sorted, Kraft, Start, Rev, Low, High, Shl, Pow2, Entered, Links, Sized, Paid, TableOk,
      Acceptable, HasRoom;
    used, root := 0, request;
    var count := CountLengths(lens);
    var min, max := LengthRange(lens, count);
    EmptyCounts(lens);
    if max == 0 {
      EmptyRoom(kind, lens, request);
      table[base] := INVALID;
      table[base + 1] := INVALID;
      EmptyTable(kind, lens, table[base..base + 2]);
      ret, used, root := 0, 2, 1;
      return;
    }
    if root > max {
      root := max;
    }
    if root < min {
      root := min;
    }
    var left := CodesLeft(lens, count);
    Decision(kind, lens, min, max, left);
    if left < 0 || (left > 0 && (kind == CODES || max != 1)) {
      ret := -1;
      return;
    }
    SortSymbols(lens, count, work);
    LengthsInRange(lens, min, max);
    ret, used := Fill(kind, lens, request, table, base, work, count, min, max, root);
  }

  // ------------------------------------------------------- ENOUGH is enough

  /** A complete code whose shortest length is min has at least 2^min codes. */
  lemma ShortestBound(lens: seq<nat>, min: nat, max: nat)
    requires Range(lens, min, max) && Complete(lens)
    ensures Pow2(min) <= |Order(lens)|
  {
    hide Sorted, Kraft, Pow2, Shl, Count;
    Extremes(lens, min, max);
    StartKraft(lens, MAXBITS);
    var n := |Order(lens)|;
    StartSlow(lens, 0, n, min);
    assert Start(lens, 0) == 0;
    ShlPow2(min, MAXBITS - min);
    assert min + (MAXBITS - min) == MAXBITS;
    if n < Pow2(min) {
      ShlMono(n, Pow2(min), MAXBITS - min);
      Pow2Positive(MAXBITS - min);
    }
  }

  /** The space an acceptable set of at most n < 2^request codes can need. */
  lemma RoomBound(kind: Kind, lens: seq<nat>, request: nat, space: nat)
    requires ValidLengths(lens) && Acceptable(kind, lens) && 1 <= request <= 14
    requires |lens| < Pow2(request)
    requires Pow2(request) + |lens| + Pow2(16 - request) <= space + 4
    ensures HasRoom(lens, request, space)
  {
    hide Sorted, Kraft, Shl, Count, Acceptable;
    Pow2Mono(1, request);
    Pow2Mono(2, 16 - request);
    SortedSize(lens, MAXBITS);
    forall min, max | Range(lens, min, max)
      ensures Room(Root(request, min, max), max, |Order(lens)|) <= space
    {
      RootBound(kind, lens, request, min, max);
      Pow2Mono(Root(request, min, max), request);
    }
    assert Pow2(request) >= 2;
  }

  lemma RootBound(kind: Kind, lens: seq<nat>, request: nat, min: nat, max: nat)
    requires ValidLengths(lens) && Acceptable(kind, lens) && 1 <= request <= 14
    requires |lens| < Pow2(request) && Range(lens, min, max)
    ensures Root(request, min, max) <= request
    ensures Root(request, min, max) < max ==> Root(request, min, max) == request
  {
    hide Sorted, Shl, Count;
    LoneCounts(lens, min, max);
    if Complete(lens) {
      ShortestBound(lens, min, max);
      SortedSize(lens, MAXBITS);
      if min > request {
        Pow2Mono(request, min);
      }
    }
  }

  /**
   The source checks its table space because its sufficiency "has not been proven
   exhaustively".  It is sufficient: a literal/length table never takes more than 922
   entries and a distance table never more than 1114, together less than ENOUGH, so the
   check against ENOUGH - MAXD never fires.
   */
  lemma EnoughIsEnough(ll: seq<nat>, dl: seq<nat>)
    requires ValidLengths(ll) && |ll| <= 286 && ValidLengths(dl) && |dl| <= 30
    ensures Acceptable(LENS, ll) ==> HasRoom(ll, 9, 922)
    ensures Acceptable(DISTS, dl) ==> HasRoom(dl, 6, 1114)
    ensures 922 < ENOUGH - MAXD && 922 + 1114 <= ENOUGH
  {
    hide Acceptable, HasRoom;
    Pow2Values();
    if Acceptable(LENS, ll) {
      RoomBound(LENS, ll, 9, 922);
    }
    if Acceptable(DISTS, dl) {
      RoomBound(DISTS, dl, 6, 1114);
    }
  }

  lemma CodesRoom(cl: seq<nat>)
    requires |cl| == 19 && ValidLengths(cl) && Acceptable(CODES, cl)
    ensures HasRoom(cl, 7, 655)
  {
    hide Acceptable, HasRoom;
    Pow2Values();
    RoomBound(CODES, cl, 7, 655);
  }

  lemma AcceptableFits(kind: Kind, lens: seq<nat>)
    requires ValidLengths(lens) && Acceptable(kind, lens)
    ensures !OverSubscribed(lens)
  {
    hide Kraft, Count;
    if Empty(lens) {
      EmptyCounts(lens);
      NoneBeyond(lens, 0, MAXBITS);
      assert Kraft(lens, 0) == 0 by {
        KraftNone(lens);
      }
    }
  }

  lemma KraftNone(lens: seq<nat>)
    ensures Kraft(lens, 0) == 0
  {
  }

  lemma RoomGrows(lens: seq<nat>, request: nat, m: nat, n: nat)
    requires HasRoom(lens, request, m) && m <= n
    ensures HasRoom(lens, request, n)
  {
    hide Room, Range, Empty;
  }
}
