/**
 Numbers and symbols as they are written are what the decoder reads (RFC 1951, sections 3.1.1, 3.2.2, 3.2.5).
 */
module EncodeSyms {
  import opened Bits
  import opened Huffman
  import opened TableSpec
  import opened Deflate
  import opened Lookup
  import E = Encode

  /** The bits w stand at pos. */
  predicate At(b: seq<bool>, pos: nat, w: seq<bool>) {
    pos + |w| <= |b| && b[pos..pos + |w|] == w
  }

  lemma AtJoin(b: seq<bool>, pos: nat, u: seq<bool>, v: seq<bool>)
    ensures At(b, pos, u + v) <==> At(b, pos, u) && At(b, pos + |u|, v)
  {
    if At(b, pos, u + v) {
      assert b[pos..pos + |u|] == (u + v)[..|u|];
      assert b[pos + |u|..pos + |u| + |v|] == (u + v)[|u|..];
    }
    if At(b, pos, u) && At(b, pos + |u|, v) {
      assert b[pos..pos + |u + v|] == b[pos..pos + |u|] + b[pos + |u|..pos + |u| + |v|];
    }
  }

  lemma AtNone(b: seq<bool>, pos: nat)
    requires pos <= |b|
    ensures At(b, pos, [])
  {
  }

  lemma {:induction false} NumAt(b: seq<bool>, pos: nat, x: nat, n: nat)
    requires x < Pow2(n)
    ensures At(b, pos, E.Num(x, n)) <==> pos + n <= |b| && Lsb(b, pos, n) == x
    decreases n
  {
    if n > 0 {
      NumAt(b, pos + 1, x / 2, n - 1);
      AtJoin(b, pos, [x % 2 == 1], E.Num(x / 2, n - 1));
    }
  }

  lemma {:induction false} MsbSnoc(b: seq<bool>, pos: nat, n: nat)
    requires pos + n + 1 <= |b|
    ensures Msb(b, pos, n + 1) == 2 * Msb(b, pos, n) + if b[pos + n] then 1 else 0
    decreases n
  {
    if n > 0 {
      MsbSnoc(b, pos + 1, n - 1);
    }
  }

  lemma {:induction false} CodeAt(b: seq<bool>, pos: nat, x: nat, n: nat)
    requires x < Pow2(n)
    ensures At(b, pos, E.Code(x, n)) <==> pos + n <= |b| && Msb(b, pos, n) == x
    decreases n
  {
    if n > 0 {
      CodeAt(b, pos, x / 2, n - 1);
      AtJoin(b, pos, E.Code(x / 2, n - 1), [x % 2 == 1]);
      if pos + n <= |b| {
        MsbSnoc(b, pos, n - 1);
      }
    }
  }

  /** A code that can be looked up. */
  ghost predicate Sound(lens: seq<nat>) {
    ValidLengths(lens) && !OverSubscribed(lens)
  }

  /** The bits of a symbol are those that the decoder reads as the symbol. */
  lemma SymAt(lens: seq<nat>, s: nat, b: seq<bool>, pos: nat)
    requires Sound(lens) && E.Coded(lens, s)
    ensures |E.SymBits(lens, s)| == lens[s]
    ensures At(b, pos, E.SymBits(lens, s)) <==> CodeHere(lens, s, b, pos)
    ensures At(b, pos, E.SymBits(lens, s)) ==> pos <= |b| && DecodeSym(lens, b, pos) == Sym(s, lens[s])
  {
    hide CodeOf, Msb, Pow2, Kraft, DecodeSym;
    CodeInWidth(lens, s);
    CodeAt(b, pos, CodeOf(lens, s), lens[s]);
    if CodeHere(lens, s, b, pos) {
      DecodeHere(lens, s, b, pos);
    }
  }

  /** A symbol that the decoder reads stands there. */
  lemma SymBack(lens: seq<nat>, b: seq<bool>, pos: nat)
    requires Sound(lens) && pos <= |b| && DecodeSym(lens, b, pos).Sym?
    ensures var r := DecodeSym(lens, b, pos);
      E.Coded(lens, r.s) && r.n == lens[r.s] && At(b, pos, E.SymBits(lens, r.s))
  {
    hide CodeOf, Msb, Pow2, Kraft;
    var r := DecodeSym(lens, b, pos);
    assert CodeHere(lens, r.s, b, pos);
    SymAt(lens, r.s, b, pos);
  }

  // The Kraft sum.

  lemma {:induction false} SymsFront(lens: seq<nat>, x: nat, n: nat, l: nat)
    requires n <= |lens|
    ensures SymsOf(lens + [x], n, l) == SymsOf(lens, n, l)
  {
    if n > 0 {
      SymsFront(lens, x, n - 1, l);
    }
  }

  lemma CountSnoc(lens: seq<nat>, x: nat, l: nat)
    ensures Count(lens + [x], l) == Count(lens, l) + if x == l then 1 else 0
  {
    SymsFront(lens, x, |lens|, l);
  }

  lemma {:induction false} KraftSnoc(lens: seq<nat>, x: nat, l: nat)
    requires l <= MAXBITS
    ensures Kraft(lens + [x], l) == Kraft(lens, l) + if 0 < x <= l then Pow2(MAXBITS - x) else 0
  {
    hide Count, Shl, Pow2;
    if l > 0 {
      KraftSnoc(lens, x, l - 1);
      CountSnoc(lens, x, l);
      ShlPlus(Count(lens, l), 1, MAXBITS - l);
      ShlOne(MAXBITS - l);
    }
  }

  lemma {:induction false} KraftNone(l: nat)
    requires l <= MAXBITS
    ensures Kraft([], l) == 0
  {
    if l > 0 {
      KraftNone(l - 1);
      ShlOne(MAXBITS - l);
    }
  }

  /** The Kraft sum is that of section 3.2.2, class by class. */
  lemma {:induction false} KraftIs(lens: seq<nat>)
    ensures E.KraftSum(lens) == Kraft(lens, MAXBITS)
  {
    hide Kraft, Pow2;
    if lens == [] {
      KraftNone(MAXBITS);
    } else {
      var n := |lens| - 1;
      KraftIs(lens[..n]);
      KraftSnoc(lens[..n], lens[n], MAXBITS);
      assert lens[..n] + [lens[n]] == lens;
    }
  }

  lemma {:induction false} ShortSum(lens: seq<nat>)
    requires forall i :: 0 <= i < |lens| ==> lens[i] <= 1
    ensures E.KraftSum(lens) % 16384 == 0 && (Empty(lens) <==> E.KraftSum(lens) == 0)
  {
    Pow2Values();
    if lens != [] {
      ShortSum(lens[..|lens| - 1]);
    }
  }

  lemma {:induction false} EmptySum(lens: seq<nat>)
    requires Empty(lens)
    ensures E.KraftSum(lens) == 0
  {
    if lens != [] {
      EmptySum(lens[..|lens| - 1]);
    }
  }

  /** The lengths that may be used are those that are accepted. */
  lemma UsableIs(lens: seq<nat>)
    requires ValidLengths(lens)
    ensures E.Usable(lens) <==> Acceptable(LENS, lens)
    ensures E.Usable(lens) <==> Acceptable(DISTS, lens)
    ensures E.Usable(lens) ==> Sound(lens)
  {
    hide Kraft;
    KraftIs(lens);
    Pow2Values();
    if forall i :: 0 <= i < |lens| ==> lens[i] <= 1 {
      ShortSum(lens);
    }
  }

  /** Which lengths are refused, by their Kraft sum: too many codes, and too few, unless there is none or, outside
      the code length code, none is longer than one bit. */
  lemma RefusedIff(kind: Kind, lens: seq<nat>)
    requires ValidLengths(lens)
    ensures Acceptable(kind, lens) <==>
      var sum := E.KraftSum(lens);
      sum == 32768 || sum == 0 || (sum < 32768 && kind != CODES && forall i :: 0 <= i < |lens| ==> lens[i] <= 1)
  {
    hide Kraft;
    KraftIs(lens);
    Pow2Values();
    if Empty(lens) {
      EmptySum(lens);
    } else {
      SomeSum(lens);
    }
  }

  lemma {:induction false} SomeSum(lens: seq<nat>)
    requires ValidLengths(lens) && !Empty(lens)
    ensures E.KraftSum(lens) > 0
  {
    var n := |lens| - 1;
    if lens[n] == 0 {
      SomeSum(lens[..n]);
    }
  }

  // The tables of section 3.2.5.

  lemma SameLengths(k: nat)
    requires k < 29
    ensures LBASE[k] == E.LENGTHS[k] && LEXT[k] == 16 + E.LENGTH_BITS[k]
  {
  }

  lemma SameDistances(k: nat)
    requires k < 30
    ensures DBASE[k] == E.DISTANCES[k] && DEXT[k] == 16 + E.DISTANCE_BITS[k]
  {
  }

  lemma TablesAre(k: nat)
    ensures k < 29 ==> LengthBase(257 + k) == E.LENGTHS[k] && LengthExtra(257 + k) == E.LENGTH_BITS[k]
    ensures k < 30 ==> DistBase(k) == E.DISTANCES[k] && DistExtra(k) == E.DISTANCE_BITS[k]
  {
    hide LengthBase, LengthExtra, DistBase, DistExtra, LBASE, LEXT, DBASE, DEXT, E.LENGTHS, E.LENGTH_BITS, E.DISTANCES,
      E.DISTANCE_BITS;
    if k < 29 {
      LengthTable(257 + k);
      SameLengths(k);
    }
    if k < 30 {
      DistTable(k);
      SameDistances(k);
    }
  }

  ghost predicate Ascending(bases: seq<nat>) {
    forall i, j :: 0 <= i < j < |bases| ==> bases[i] < bases[j]
  }

  lemma {:induction false} SlotIs(bases: seq<nat>, x: nat)
    requires bases != [] && bases[0] <= x
    ensures var k := E.Slot(bases, x); bases[k] <= x && (k + 1 < |bases| ==> x < bases[k + 1])
  {
    var n := |bases| - 1;
    if n > 0 && x < bases[n] {
      SlotIs(bases[..n], x);
    }
  }

  lemma SlotUnique(bases: seq<nat>, x: nat, k: nat)
    requires Ascending(bases) && k < |bases| && bases[k] <= x && (k + 1 < |bases| ==> x < bases[k + 1])
    ensures E.Slot(bases, x) == k
  {
    SlotIs(bases, x);
  }

  /** Every base is as far from the next as its extra bits reach. */
  lemma LengthStep(k: nat)
    requires k < 28
    ensures E.LENGTHS[k + 1] == E.LENGTHS[k] + Pow2(E.LENGTH_BITS[k]) - if k == 27 then 1 else 0
  {
    Pow2Values();
  }

  lemma NearStep(k: nat)
    requires k < 15
    ensures E.DISTANCES[k + 1] == E.DISTANCES[k] + Pow2(E.DISTANCE_BITS[k])
  {
    Pow2Values();
  }

  lemma FarStep(k: nat)
    requires 15 <= k < 29
    ensures E.DISTANCES[k + 1] == E.DISTANCES[k] + Pow2(E.DISTANCE_BITS[k])
  {
    Pow2Values();
  }

  lemma DistStep(k: nat)
    requires k < 29
    ensures E.DISTANCES[k + 1] == E.DISTANCES[k] + Pow2(E.DISTANCE_BITS[k])
  {
    hide E.DISTANCES, E.DISTANCE_BITS, Pow2;
    if k < 15 {
      NearStep(k);
    } else {
      FarStep(k);
    }
  }

  lemma {:induction false} AscendingIf(bases: seq<nat>)
    requires forall k :: 0 <= k < |bases| - 1 ==> bases[k] < bases[k + 1]
    ensures Ascending(bases)
  {
    if |bases| > 1 {
      var front := bases[..|bases| - 1];
      AscendingIf(front);
      assert forall i :: 0 <= i < |front| ==> front[i] == bases[i];
      assert bases[|front| - 1] < bases[|front|];
    }
  }

  lemma LengthsAscend()
    ensures Ascending(E.LENGTHS)
  {
    AscendingIf(E.LENGTHS);
  }

  lemma DistancesAscend()
    ensures Ascending(E.DISTANCES)
  {
    AscendingIf(E.DISTANCES);
  }

  lemma TablesAscend()
    ensures Ascending(E.LENGTHS) && Ascending(E.DISTANCES)
    ensures |E.LENGTHS| == |E.LENGTH_BITS| == 29 && |E.DISTANCES| == |E.DISTANCE_BITS| == 30
    ensures E.LENGTHS[0] == 3 && E.LENGTHS[28] == 258 && E.LENGTH_BITS[28] == 0 && E.LENGTHS[27] == 227
    ensures E.DISTANCES[0] == 1 && E.DISTANCES[29] == 24577 && E.DISTANCE_BITS[29] == 13
  {
    LengthsAscend();
    DistancesAscend();
    hide Ascending;
  }

  lemma LengthSlot(length: nat)
    requires 3 <= length <= 258
    ensures var k := E.Slot(E.LENGTHS, length);
      k < 29 == |E.LENGTH_BITS| && E.LENGTHS[k] <= length < E.LENGTHS[k] + Pow2(E.LENGTH_BITS[k])
  {
    hide E.Slot, E.LENGTHS, E.LENGTH_BITS;
    TablesAscend();
    Pow2Values();
    SlotIs(E.LENGTHS, length);
    var k := E.Slot(E.LENGTHS, length);
    if k < 28 {
      LengthStep(k);
    }
  }

  lemma DistSlot(dist: nat)
    requires 1 <= dist <= 32768
    ensures var k := E.Slot(E.DISTANCES, dist);
      k < 30 == |E.DISTANCE_BITS| && E.DISTANCES[k] <= dist < E.DISTANCES[k] + Pow2(E.DISTANCE_BITS[k])
  {
    hide E.Slot, E.DISTANCES, E.DISTANCE_BITS;
    TablesAscend();
    Pow2Values();
    SlotIs(E.DISTANCES, dist);
    var k := E.Slot(E.DISTANCES, dist);
    if k < 29 {
      DistStep(k);
    }
  }
}
