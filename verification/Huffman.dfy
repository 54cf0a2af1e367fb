/**
 Canonical Huffman codes as section 3.2.2 of RFC 1951 defines them, and the geometry
 that makes them easy to reason about: left-aligned in a 15-bit word, the codes in
 sorted order tile the interval [0, 2^15) from the left.
 */
module Huffman {
  import opened Bits

  const MAXBITS: nat := 15

  predicate ValidLengths(lens: seq<nat>) {
    forall i :: 0 <= i < |lens| ==> lens[i] <= MAXBITS
  }

  // ------------------------------------------------- the RFC 1951 definition

  /** The symbols below n whose code length is l, in increasing order. */
  function SymsOf(lens: seq<nat>, n: nat, l: nat): (r: seq<nat>)
    requires n <= |lens|
    ensures |r| <= n
    ensures forall j :: 0 <= j < |r| ==> r[j] < n && lens[r[j]] == l
  {
    if n == 0 then [] else SymsOf(lens, n - 1, l) + (if lens[n - 1] == l then [n - 1] else [])
  }

  function Count(lens: seq<nat>, l: nat): nat {
    |SymsOf(lens, |lens|, l)|
  }

  /** Step 2 of the algorithm in section 3.2.2: the smallest code of each length. */
  function NextCode(lens: seq<nat>, l: nat): nat {
    if l <= 1 then 0 else 2 * (NextCode(lens, l - 1) + Count(lens, l - 1))
  }

  /** Step 3: consecutive codes for the symbols of one length, in symbol order. */
  function CodeOf(lens: seq<nat>, s: nat): nat
    requires s < |lens|
  {
    NextCode(lens, lens[s]) + |SymsOf(lens, s, lens[s])|
  }

  /** The code of s, packed starting with its most significant bit, begins the word x. */
  predicate Prefixes(lens: seq<nat>, s: nat, x: nat) {
    s < |lens| && lens[s] > 0 && Low(x, lens[s]) == Rev(lens[s], CodeOf(lens, s))
  }

  /** Kraft sum of the codes of length at most l, in units of 2^-15. */
  function Kraft(lens: seq<nat>, l: nat): nat
    requires l <= MAXBITS
  {
    if l == 0 then 0 else Kraft(lens, l - 1) + Shl(Count(lens, l), MAXBITS - l)
  }

  predicate OverSubscribed(lens: seq<nat>) {
    Kraft(lens, MAXBITS) > Pow2(MAXBITS)
  }

  predicate Complete(lens: seq<nat>) {
    Kraft(lens, MAXBITS) == Pow2(MAXBITS)
  }

  /** No symbol has a code. */
  predicate Empty(lens: seq<nat>) {
    forall i :: 0 <= i < |lens| ==> lens[i] == 0
  }

  // ------------------------------------------------------------ sorted order

  /** Symbols with code lengths 1..l, by length and then by symbol. */
  function Sorted(lens: seq<nat>, l: nat): (r: seq<nat>)
    ensures forall j :: 0 <= j < |r| ==> r[j] < |lens| && 0 < lens[r[j]] <= l
  {
    if l == 0 then [] else Sorted(lens, l - 1) + SymsOf(lens, |lens|, l)
  }

  /** All coded symbols in table order. */
  function Order(lens: seq<nat>): (r: seq<nat>)
    ensures forall j :: 0 <= j < |r| ==> r[j] < |lens| && 0 < lens[r[j]] <= MAXBITS
  {
    Sorted(lens, MAXBITS)
  }

  /** Where the k-th code in table order starts, left-aligned in 15 bits. */
  function Start(lens: seq<nat>, k: nat): nat
    requires k <= |Order(lens)|
  {
    if k == 0 then 0 else Start(lens, k - 1) + Pow2(MAXBITS - lens[Order(lens)[k - 1]])
  }

  lemma {:induction false} SymsOfPrefix(lens: seq<nat>, m: nat, n: nat, l: nat)
    requires m <= n <= |lens|
    ensures |SymsOf(lens, m, l)| <= |SymsOf(lens, n, l)|
    ensures SymsOf(lens, m, l) == SymsOf(lens, n, l)[..|SymsOf(lens, m, l)|]
    decreases n
  {
    if m < n {
      SymsOfPrefix(lens, m, n - 1, l);
    }
  }

  /** A symbol sits in its class at the number of smaller symbols of the same length. */
  lemma SymsOfRank(lens: seq<nat>, s: nat, l: nat)
    requires s < |lens| && lens[s] == l
    ensures |SymsOf(lens, s, l)| < Count(lens, l)
    ensures SymsOf(lens, |lens|, l)[|SymsOf(lens, s, l)|] == s
  {
    SymsOfPrefix(lens, s + 1, |lens|, l);
    var a := SymsOf(lens, s + 1, l);
    assert a == SymsOf(lens, s, l) + [s];
    assert a[|a| - 1] == s;
  }

  lemma {:induction false} SortedPrefix(lens: seq<nat>, m: nat, l: nat)
    requires m <= l
    ensures |Sorted(lens, m)| <= |Sorted(lens, l)|
    ensures Sorted(lens, m) == Sorted(lens, l)[..|Sorted(lens, m)|]
    decreases l
  {
    hide SymsOf;
    if m < l {
      SortedPrefix(lens, m, l - 1);
    }
  }

  lemma {:induction false} SortedBound(lens: seq<nat>, l: nat, n: nat)
    requires n <= |lens|
    ensures l > 0 ==> |SymsOf(lens, n, l)| + SortedCount(lens, n, l - 1) == SortedCount(lens, n, l)
    ensures SortedCount(lens, n, l) <= n
  {
    if n > 0 {
      SortedBound(lens, l, n - 1);
    }
  }

  /** How many of the symbols below n have lengths 1..l. */
  function SortedCount(lens: seq<nat>, n: nat, l: nat): nat
    requires n <= |lens|
  {
    if n == 0 then 0 else SortedCount(lens, n - 1, l) + if 0 < lens[n - 1] <= l then 1 else 0
  }

  lemma {:induction false} SortedSize(lens: seq<nat>, l: nat)
    ensures |Sorted(lens, l)| == SortedCount(lens, |lens|, l) <= |lens|
  {
    hide SymsOf;
    SortedBound(lens, l, |lens|);
    if l > 0 {
      SortedSize(lens, l - 1);
    } else {
      NoneBelow(lens, |lens|);
    }
  }

  lemma {:induction false} NoneBelow(lens: seq<nat>, n: nat)
    requires n <= |lens|
    ensures SortedCount(lens, n, 0) == 0
  {
    if n > 0 {
      NoneBelow(lens, n - 1);
    }
  }

  /** Position k holds a code of length l exactly when it is in the l-th class. */
  lemma {:induction false} OrderClass(lens: seq<nat>, k: nat, l: nat)
    requires k < |Order(lens)| && 0 < l <= MAXBITS
    ensures |Sorted(lens, l - 1)| <= k < |Sorted(lens, l)| <==> lens[Order(lens)[k]] == l
    ensures k < |Sorted(lens, l)| <==> lens[Order(lens)[k]] <= l
    ensures |Sorted(lens, l)| == |Sorted(lens, l - 1)| + Count(lens, l)
    ensures |Sorted(lens, l)| <= |Order(lens)|
  {
    hide SymsOf;
    SortedPrefix(lens, l, MAXBITS);
    SortedPrefix(lens, l - 1, l);
    var low, here := Sorted(lens, l - 1), Sorted(lens, l);
    if k < |low| {
      assert Order(lens)[k] == low[k];
    } else if k < |here| {
      assert Order(lens)[k] == here[k] == SymsOf(lens, |lens|, l)[k - |low|];
    } else {
      Later(lens, k, l, MAXBITS);
    }
  }

  lemma {:induction false} Later(lens: seq<nat>, k: nat, l: nat, top: nat)
    requires |Sorted(lens, l)| <= k < |Sorted(lens, top)| && l < top
    ensures lens[Sorted(lens, top)[k]] > l
    decreases top
  {
    hide SymsOf;
    var below, here := Sorted(lens, top - 1), SymsOf(lens, |lens|, top);
    assert Sorted(lens, top) == below + here;
    if k < |below| {
      Later(lens, k, l, top - 1);
    } else {
      assert Sorted(lens, top)[k] == here[k - |below|];
    }
  }

  lemma LengthsAscend(lens: seq<nat>, j: nat, k: nat)
    requires j <= k < |Order(lens)|
    ensures lens[Order(lens)[j]] <= lens[Order(lens)[k]]
  {
    hide Sorted, SymsOf;
    OrderClass(lens, k, lens[Order(lens)[k]]);
    OrderClass(lens, j, lens[Order(lens)[k]]);
  }

  // ------------------------------------------------------- codes as intervals

  lemma {:induction false} StartMono(lens: seq<nat>, j: nat, k: nat)
    requires j <= k <= |Order(lens)|
    ensures Start(lens, j) + (k - j) <= Start(lens, k)
    decreases k
  {
    hide Sorted, SymsOf;
    if j < k {
      StartMono(lens, j, k - 1);
    }
  }

  lemma {:induction false} StartInClass(lens: seq<nat>, l: nat, r: nat)
    requires 0 < l <= MAXBITS && r <= Count(lens, l)
    requires |Sorted(lens, l)| <= |Order(lens)|
    requires Start(lens, |Sorted(lens, l - 1)|) == Kraft(lens, l - 1)
    ensures |Sorted(lens, l - 1)| + r <= |Sorted(lens, l)|
    ensures Start(lens, |Sorted(lens, l - 1)| + r) == Kraft(lens, l - 1) + Shl(r, MAXBITS - l)
    decreases r
  {
    hide SymsOf, Kraft, Shl;
    ShlOne(MAXBITS - l);
    if r > 0 {
      var k := |Sorted(lens, l - 1)| + (r - 1);
      StartInClass(lens, l, r - 1);
      assert lens[Order(lens)[k]] == l by { OrderClass(lens, k, l); }
      ShlPlus(r - 1, 1, MAXBITS - l);
      ShlOne(MAXBITS - l);
      assert Start(lens, k + 1) == Start(lens, k) + Pow2(MAXBITS - l);
    }
  }

  /** The codes of length at most l fill [0, Kraft(l)). */
  lemma {:induction false} StartKraft(lens: seq<nat>, l: nat)
    requires l <= MAXBITS
    ensures |Sorted(lens, l)| <= |Order(lens)|
    ensures Start(lens, |Sorted(lens, l)|) == Kraft(lens, l)
    decreases l
  {
    hide SymsOf, Start, Shl, Pow2;
    SortedPrefix(lens, l, MAXBITS);
    if l > 0 {
      StartKraft(lens, l - 1);
      StartInClass(lens, l, Count(lens, l));
    } else {
      StartNone(lens);
    }
  }

  lemma StartNone(lens: seq<nat>)
    ensures Start(lens, 0) == 0
  {
  }

  lemma {:induction false} NextCodeKraft(lens: seq<nat>, l: nat)
    requires 0 < l <= MAXBITS
    ensures Shl(NextCode(lens, l), MAXBITS - l) == Kraft(lens, l - 1)
  {
    hide SymsOf;
    ShlOne(MAXBITS - l);
    if l > 1 {
      NextCodeKraft(lens, l - 1);
      var a, c := NextCode(lens, l - 1), Count(lens, l - 1);
      ShlPlus(a, c, MAXBITS - (l - 1));
      ShlShl(a + c, 1, MAXBITS - l);
      assert Shl(a + c, 1) == 2 * Shl(a + c, 0);
    }
  }

  /** Position k is the rank of its symbol after all shorter codes. */
  lemma OrderRank(lens: seq<nat>, k: nat)
    requires k < |Order(lens)|
    ensures var s := Order(lens)[k];
            k == |Sorted(lens, lens[s] - 1)| + |SymsOf(lens, s, lens[s])|
            && |SymsOf(lens, s, lens[s])| < Count(lens, lens[s])
  {
    hide SymsOf;
    var s := Order(lens)[k];
    var l := lens[s];
    OrderClass(lens, k, l);
    var r := k - |Sorted(lens, l - 1)|;
    SortedPrefix(lens, l, MAXBITS);
    assert s == Sorted(lens, l)[k] == SymsOf(lens, |lens|, l)[r];
    RankUnique(lens, |lens|, l, r);
  }

  /** The k-th code in table order, left-aligned, starts at Start(k). */
  lemma CodeStart(lens: seq<nat>, k: nat)
    requires k < |Order(lens)|
    ensures var s := Order(lens)[k]; Shl(CodeOf(lens, s), MAXBITS - lens[s]) == Start(lens, k)
  {
    hide Sorted, SymsOf, Start, Kraft, NextCode, Shl;
    var s := Order(lens)[k];
    var l, r := lens[s], |SymsOf(lens, s, lens[s])|;
    OrderRank(lens, k);
    StartKraft(lens, l);
    StartKraft(lens, l - 1);
    StartInClass(lens, l, r);
    NextCodeKraft(lens, l);
    ShlPlus(NextCode(lens, l), r, MAXBITS - l);
  }

  lemma {:induction false} SymsAscend(lens: seq<nat>, n: nat, l: nat, i: nat, j: nat)
    requires n <= |lens| && i < j < |SymsOf(lens, n, l)|
    ensures SymsOf(lens, n, l)[i] < SymsOf(lens, n, l)[j]
  {
    if j < |SymsOf(lens, n - 1, l)| {
      SymsAscend(lens, n - 1, l, i, j);
    }
  }

  /** Section 3.2.2: the first code is 0, the next one starts where a code ends, and codes go by length and, of
      one length, by symbol. */
  lemma Canonical(lens: seq<nat>, k: nat)
    requires k + 1 < |Order(lens)|
    ensures var s, t := Order(lens)[k], Order(lens)[k + 1];
      && Shl(CodeOf(lens, t), 15 - lens[t]) == Shl(CodeOf(lens, s) + 1, 15 - lens[s])
      && (lens[s] < lens[t] || (lens[s] == lens[t] && s < t))
    ensures Shl(CodeOf(lens, Order(lens)[0]), 15 - lens[Order(lens)[0]]) == 0
  {
    hide Sorted, SymsOf, Kraft, NextCode, Shl, CodeOf;
    var s, t := Order(lens)[k], Order(lens)[k + 1];
    CodeStart(lens, 0);
    CodeStart(lens, k);
    CodeStart(lens, k + 1);
    ShlPlus(CodeOf(lens, s), 1, MAXBITS - lens[s]);
    ShlOne(MAXBITS - lens[s]);
    LengthsAscend(lens, k, k + 1);
    if lens[s] == lens[t] {
      SameClass(lens, k, lens[s]);
    }
  }

  lemma SameClass(lens: seq<nat>, k: nat, l: nat)
    requires k + 1 < |Order(lens)| && lens[Order(lens)[k]] == lens[Order(lens)[k + 1]] == l
    ensures Order(lens)[k] < Order(lens)[k + 1]
  {
    hide SymsOf;
    OrderClass(lens, k, l);
    OrderClass(lens, k + 1, l);
    SortedPrefix(lens, l, MAXBITS);
    var low, here := Sorted(lens, l - 1), SymsOf(lens, |lens|, l);
    assert Sorted(lens, l) == low + here;
    SymsAscend(lens, |lens|, l, k - |low|, k + 1 - |low|);
  }

  lemma {:induction false} RankUnique(lens: seq<nat>, n: nat, l: nat, r: nat)
    requires n <= |lens| && r < |SymsOf(lens, n, l)|
    ensures |SymsOf(lens, SymsOf(lens, n, l)[r], l)| == r
  {
    var below := SymsOf(lens, n - 1, l);
    if r < |below| {
      RankUnique(lens, n - 1, l, r);
    }
  }

  /** Every coded symbol appears in the table order. */
  lemma PositionOf(lens: seq<nat>, s: nat) returns (k: nat)
    requires s < |lens| && 0 < lens[s] <= MAXBITS
    ensures k < |Order(lens)| && Order(lens)[k] == s
  {
    hide SymsOf;
    var l := lens[s];
    SymsOfRank(lens, s, l);
    SortedPrefix(lens, l, MAXBITS);
    k := |Sorted(lens, l - 1)| + |SymsOf(lens, s, l)|;
    assert Sorted(lens, l)[k] == s;
  }

  /** A set of lengths that is not over-subscribed leaves every code inside its width. */
  lemma CodeFits(lens: seq<nat>, k: nat)
    requires k < |Order(lens)| && !OverSubscribed(lens)
    ensures var s := Order(lens)[k]; CodeOf(lens, s) < Pow2(lens[s])
    ensures Start(lens, k + 1) <= Pow2(MAXBITS)
  {
    hide Sorted, SymsOf, Shl, NextCode, Pow2;
    var s := Order(lens)[k];
    CodeStart(lens, k);
    StartMono(lens, k + 1, |Order(lens)|);
    StartKraft(lens, MAXBITS);
    ShlPow2(lens[s], MAXBITS - lens[s]);
    ShlMono(Pow2(lens[s]), CodeOf(lens, s), MAXBITS - lens[s]);
  }

  /** A word begins with the k-th code exactly when its reversal falls in that code's interval. */
  lemma PrefixesInterval(lens: seq<nat>, k: nat, x: nat)
    requires k < |Order(lens)| && !OverSubscribed(lens)
    ensures Prefixes(lens, Order(lens)[k], x) <==>
            Start(lens, k) <= Rev(MAXBITS, x) < Start(lens, k + 1)
  {
    hide Sorted, SymsOf, Kraft, NextCode, Shl, Pow2, Rev, Low;
    var s := Order(lens)[k];
    var n := lens[s];
    CodeStart(lens, k);
    CodeFits(lens, k);
    RevRev(n, CodeOf(lens, s));
    PrefixInterval(MAXBITS - n, n, Rev(n, CodeOf(lens, s)), x);
    assert n + (MAXBITS - n) == MAXBITS;
  }

  /** Canonical codes are prefix-free: a word begins with at most one of them. */
  lemma PrefixFree(lens: seq<nat>, s: nat, t: nat, x: nat)
    requires ValidLengths(lens) && !OverSubscribed(lens)
    requires Prefixes(lens, s, x) && Prefixes(lens, t, x)
    ensures s == t
  {
    hide Sorted, SymsOf, Kraft, Start, CodeOf;
    var j := PositionOf(lens, s);
    var k := PositionOf(lens, t);
    PrefixesInterval(lens, j, x);
    PrefixesInterval(lens, k, x);
    if j < k {
      StartMono(lens, j + 1, k);
    } else if k < j {
      StartMono(lens, k + 1, j);
    }
  }

  /** In a complete code every word begins with some code. */
  lemma CompleteCovers(lens: seq<nat>, x: nat) returns (k: nat)
    requires Complete(lens)
    ensures k < |Order(lens)| && Prefixes(lens, Order(lens)[k], x)
  {
    hide Sorted, SymsOf, Prefixes;
    StartKraft(lens, MAXBITS);
    var y := Rev(MAXBITS, x);
    k := 0;
    while Start(lens, k + 1) <= y
      invariant k < |Order(lens)| && Start(lens, k) <= y
      decreases |Order(lens)| - k
    {
      k := k + 1;
    }
    PrefixesInterval(lens, k, x);
  }
}
