/**
 The fixed tables lenfix and distfix (src/cmd/INIT/ratz.c:2429-2531), written by the rule
 that generates them, decode the fixed codes of section 3.2.6 of RFC 1951.
 */
module Fixed {
  import opened Bits
  import opened Huffman
  import opened TableSpec
  import opened Deflate

  function LenFixEntry(i: nat): Entry {
    if Rev(7, i) < 24 then Marked(256 + Rev(7, i), 7)
    else if Rev(8, i) < 192 then Marked(Rev(8, i) - 48, 8)
    else if Rev(8, i) < 200 then Marked(Rev(8, i) - 192 + 280, 8)
    else Marked(Rev(9, i) - 400 + 144, 9)
  }

  /** The leaf of s, with the invalid marker for the two symbols that never occur. */
  function Marked(s: int, n: nat): Entry {
    if 0 <= s <= 285 then Leaf(LENS, s, n) else Entry(64, n, 0)
  }

  function DistFixEntry(i: nat): Entry {
    assert Pow2(5) == 32 by { Pow2Values(); }
    Leaf(DISTS, Rev(5, i), 5)
  }

  function LenFix(): (r: seq<Entry>)
    ensures |r| == 512
  {
    seq(512, i requires 0 <= i < 512 => LenFixEntry(i))
  }

  function DistFix(): (r: seq<Entry>)
    ensures |r| == 32
  {
    seq(32, i requires 0 <= i < 32 => DistFixEntry(i))
  }

  // ------------------------------------------------ the codes behind the tables

  function Clip(x: int, n: nat): nat {
    if x < 0 then 0 else if x > n then n else x
  }

  lemma {:induction false} FixedCounts(n: nat)
    requires n <= 288
    ensures |SymsOf(FixedLit(), n, 7)| == Clip(n - 256, 24)
    ensures |SymsOf(FixedLit(), n, 8)| == Clip(n, 144) + Clip(n - 280, 8)
    ensures |SymsOf(FixedLit(), n, 9)| == Clip(n - 144, 112)
  {
    if n > 0 {
      FixedCounts(n - 1);
      var l := FixedLit()[n - 1];
      assert l == if n - 1 < 144 then 8 else if n - 1 < 256 then 9 else if n - 1 < 280 then 7 else 8;
      SymsStep(FixedLit(), n, 7);
      SymsStep(FixedLit(), n, 8);
      SymsStep(FixedLit(), n, 9);
    }
  }

  lemma SymsStep(lens: seq<nat>, n: nat, l: nat)
    requires 0 < n <= |lens|
    ensures |SymsOf(lens, n, l)| == |SymsOf(lens, n - 1, l)| + if lens[n - 1] == l then 1 else 0
  {
  }

  lemma {:induction false} OtherCounts(lens: seq<nat>, n: nat, l: nat)
    requires n <= |lens| && forall i :: 0 <= i < n ==> lens[i] != l
    ensures |SymsOf(lens, n, l)| == 0
  {
    if n > 0 {
      OtherCounts(lens, n - 1, l);
      SymsStep(lens, n, l);
    }
  }

  lemma FixedCount(l: nat)
    ensures Count(FixedLit(), l) == if l == 7 then 24 else if l == 8 then 152 else if l == 9 then 112 else 0
  {
    hide SymsOf;
    FixedCounts(288);
    if l < 7 || l > 9 {
      OtherCounts(FixedLit(), 288, l);
    }
  }

  lemma {:induction false} FixedNextCode(l: nat)
    requires l <= 9
    ensures NextCode(FixedLit(), l) == if l <= 7 then 0 else if l == 8 then 48 else 400
    decreases l
  {
    hide Count;
    if l > 1 {
      FixedNextCode(l - 1);
      FixedCount(l - 1);
    }
  }

  lemma {:induction false} FixedKraft(l: nat)
    requires l <= MAXBITS
    ensures Kraft(FixedLit(), l) == if l < 7 then 0 else if l == 7 then 6144 else if l == 8 then 25600 else 32768
    decreases l
  {
    hide Count, Shl;
    if l > 0 {
      FixedKraft(l - 1);
      FixedCount(l);
      ShlOne(MAXBITS - l);
      ShlAmounts();
    }
  }

  lemma ShlAmounts()
    ensures Shl(24, 8) == 6144 && Shl(152, 7) == 19456 && Shl(112, 6) == 7168
  {
    assert Shl(24, 4) == 384;
    assert Shl(152, 4) == 2432;
    assert Shl(112, 4) == 1792;
  }

  lemma FixedComplete()
    ensures ValidLengths(FixedLit()) && Complete(FixedLit())
  {
    hide Kraft, Pow2;
    FixedKraft(MAXBITS);
    Pow2Values();
  }

  /** Section 3.2.6: the code of each literal/length symbol. */
  lemma FixedCode(s: nat)
    requires s < 288
    ensures CodeOf(FixedLit(), s) ==
            if s < 144 then 48 + s else if s < 256 then 400 + s - 144 else if s < 280 then s - 256 else 192 + s - 280
  {
    hide SymsOf, NextCode;
    FixedCounts(s);
    FixedNextCode(FixedLit()[s]);
  }

  lemma CodeBegins(lens: seq<nat>, s: nat, x: nat, n: nat)
    requires s < |lens| && lens[s] == n > 0 && CodeOf(lens, s) == Rev(n, x)
    ensures Prefixes(lens, s, x)
  {
    hide Rev, Low, CodeOf;
    RevLow(n, x);
    RevRev(n, Low(x, n));
  }

  lemma RevHalf(n: nat, x: nat)
    ensures 2 * Rev(n, x) <= Rev(n + 1, x) <= 2 * Rev(n, x) + 1
  {
    hide Rev, Low, High;
    RevSplit(n, 1, x);
    assert Shl(Rev(n, x), 1) == 2 * Shl(Rev(n, x), 0);
    assert Pow2(1) == 2;
  }

  /** The symbol that a word begins with in the fixed literal/length code. */
  function FixedSym(x: nat): (s: int)
  {
    if Rev(7, x) < 24 then 256 + Rev(7, x)
    else if Rev(8, x) < 192 then Rev(8, x) - 48
    else if Rev(8, x) < 200 then Rev(8, x) - 192 + 280
    else Rev(9, x) - 400 + 144
  }

  lemma FixedSymOk(x: nat)
    ensures 0 <= FixedSym(x) < 288 && Prefixes(FixedLit(), FixedSym(x), x)
    ensures LenFixEntry(x) == Marked(FixedSym(x), FixedLit()[FixedSym(x)])
  {
    hide Rev, CodeOf, Prefixes;
    RevHalf(7, x);
    RevHalf(8, x);
    Pow2Values();
    var s := FixedSym(x);
    FixedCode(s);
    CodeBegins(FixedLit(), s, x, FixedLit()[s]);
  }

  lemma LenFixOk()
    ensures GoodTable(LENS, FixedLit(), LenFix(), 9)
  {
    hide Rev, Low, Prefixes, Kraft;
    FixedComplete();
    Pow2Values();
    forall x: nat | x < Pow2(MAXBITS)
      ensures WordOk(LENS, FixedLit(), LenFix(), 9, x)
    {
      var i := Low(x, 9);
      LowLow(x, 7, 9);
      LowLow(x, 8, 9);
      RevLow(7, x);
      RevLow(8, x);
      RevLow(9, x);
      RevLow(7, i);
      RevLow(8, i);
      FixedSymOk(x);
      var s: nat := FixedSym(x);
      assert LenFix()[i] == LenFixEntry(i) == LenFixEntry(x);
      MarkedIs(LenFix()[i], s);
    }
  }

  lemma MarkedIs(e: Entry, s: nat)
    requires s < 288 && e == Marked(s, FixedLit()[s])
    ensures !IsLink(e) && FoundBy(LENS, FixedLit(), e, 0, s)
  {
    if s <= 285 {
      LeafIsNotLink(LENS, s, FixedLit()[s]);
    }
  }

  // ------------------------------------------------------------ distance codes

  lemma {:induction false} DistCounts(n: nat)
    requires n <= 32
    ensures |SymsOf(FixedDist(), n, 5)| == n
  {
    if n > 0 {
      DistCounts(n - 1);
      SymsStep(FixedDist(), n, 5);
    }
  }

  lemma DistCount(l: nat)
    ensures Count(FixedDist(), l) == if l == 5 then 32 else 0
  {
    hide SymsOf;
    DistCounts(32);
    if l != 5 {
      OtherCounts(FixedDist(), 32, l);
    }
  }

  lemma {:induction false} DistNextCode(l: nat)
    requires l <= 5
    ensures NextCode(FixedDist(), l) == 0
    decreases l
  {
    hide Count;
    if l > 1 {
      DistNextCode(l - 1);
      DistCount(l - 1);
    }
  }

  lemma {:induction false} DistKraft(l: nat)
    requires l <= MAXBITS
    ensures Kraft(FixedDist(), l) == if l < 5 then 0 else 32768
    decreases l
  {
    hide Count, Shl;
    if l > 0 {
      DistKraft(l - 1);
      DistCount(l);
      ShlOne(MAXBITS - l);
      ShlPow2(5, 10);
      Pow2Values();
    }
  }

  lemma DistFixOk()
    ensures GoodTable(DISTS, FixedDist(), DistFix(), 5)
  {
    hide Rev, Low, Prefixes, Kraft, SymsOf, NextCode;
    DistKraft(MAXBITS);
    Pow2Values();
    forall x: nat | x < Pow2(MAXBITS)
      ensures WordOk(DISTS, FixedDist(), DistFix(), 5, x)
    {
      var i, s := Low(x, 5), Rev(5, x);
      RevLow(5, x);
      DistCounts(s);
      DistNextCode(5);
      CodeBegins(FixedDist(), s, x, 5);
      assert DistFix()[i] == DistFixEntry(i) == Leaf(DISTS, s, 5);
      LeafIsNotLink(DISTS, s, 5);
      assert FoundBy(DISTS, FixedDist(), DistFix()[i], 0, s);
    }
  }
}
