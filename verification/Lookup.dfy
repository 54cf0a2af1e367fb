/**
 Looking up a code in a bit accumulator: what a table entry found with the bits at hand
 says about the symbol that the bit stream continues with.
 */
module Lookup {
  import opened Bits
  import opened Huffman
  import opened TableSpec
  import opened Deflate

  /** The entry a hold of input bits leads to, and the code bits up to its end. */
  datatype Found = Found(e: Entry, n: nat)

  function Find(tab: seq<Entry>, root: nat, hold: nat): (r: Found)
    requires Pow2(root) <= |tab|
    requires var e := tab[Low(hold, root)]; IsLink(e) ==> e.val + Pow2(e.op) <= |tab|
  {
    var e := tab[Low(hold, root)];
    if IsLink(e) then
      var f := tab[e.val + Low(High(hold, root), e.op)];
      Found(f, root + f.bits)
    else
      Found(e, e.bits)
  }

  lemma LowOfBits(b: seq<bool>, pos: nat, n: nat, k: nat)
    requires n <= k && pos + k <= |b|
    ensures Low(Lsb(b, pos, k), n) == Lsb(b, pos, n)
  {
    LsbTake(b, pos, n, k - n);
    assert n + (k - n) == k;
  }

  /** A code stands at pos exactly when it begins any word made of enough bits from there. */
  lemma HerePrefixes(lens: seq<nat>, s: nat, b: seq<bool>, pos: nat, k: nat)
    requires s < |lens| && 0 < lens[s] <= k && pos + k <= |b| && CodeOf(lens, s) < Pow2(lens[s])
    ensures CodeHere(lens, s, b, pos) <==> Prefixes(lens, s, Lsb(b, pos, k))
  {
    hide CodeOf, Low, High, Rev, Lsb, Msb, Pow2;
    var n := lens[s];
    LowOfBits(b, pos, n, k);
    RevLsb(b, pos, n);
    RevRev(n, CodeOf(lens, s));
    RevRev(n, Lsb(b, pos, n));
  }

  lemma CodeInWidth(lens: seq<nat>, s: nat)
    requires ValidLengths(lens) && !OverSubscribed(lens) && s < |lens| && lens[s] > 0
    ensures CodeOf(lens, s) < Pow2(lens[s])
  {
    hide Kraft, Sorted;
    var k := PositionOf(lens, s);
    CodeFits(lens, k);
  }

  lemma HereUnique(lens: seq<nat>, s: nat, t: nat, b: seq<bool>, pos: nat)
    requires ValidLengths(lens) && !OverSubscribed(lens) && pos <= |b|
    requires CodeHere(lens, s, b, pos) && CodeHere(lens, t, b, pos)
    ensures s == t
  {
    hide CodeOf, Low, Lsb, Msb, Kraft;
    var k := if |b| - pos < MAXBITS then |b| - pos else MAXBITS;
    CodeInWidth(lens, s);
    CodeInWidth(lens, t);
    HerePrefixes(lens, s, b, pos, k);
    HerePrefixes(lens, t, b, pos, k);
    PrefixFree(lens, s, t, Lsb(b, pos, k));
  }

  /** The symbol found is the one whose code stands there. */
  lemma DecodeHere(lens: seq<nat>, s: nat, b: seq<bool>, pos: nat)
    requires ValidLengths(lens) && !OverSubscribed(lens) && pos <= |b| && CodeHere(lens, s, b, pos)
    ensures DecodeSym(lens, b, pos) == Sym(s, lens[s])
  {
    hide CodeOf, Msb, Kraft;
    var r := DecodeSym(lens, b, pos);
    assert CodeHere(lens, r.s, b, pos);
    HereUnique(lens, s, r.s, b, pos);
  }

  // -------------------------------------------------------- what an entry tells

  /** The entry found is the leaf of a symbol whose code begins the word, or marks a first
      bit with which no code begins. */
  ghost predicate FoundOk(kind: Kind, lens: seq<nat>, f: Found, x: nat) {
    (exists s: nat :: Prefixes(lens, s, x) && SymbolOf(kind, lens, f, s))
    || (f == Found(INVALID, 1) && NoneAfter(lens, Low(x, 1)))
  }

  ghost predicate SymbolOf(kind: Kind, lens: seq<nat>, f: Found, s: nat) {
    s < |lens| && s < Limit(kind) && f.n == lens[s] && Means(kind, f.e, s)
  }

  /** A table lookup sees only the first 15 bits. */
  lemma FindOk(kind: Kind, lens: seq<nat>, tab: seq<Entry>, root: nat, hold: nat)
    requires TableOk(kind, lens, tab, root)
    ensures var e := tab[Low(hold, root)]; IsLink(e) ==> e.bits == root && e.val + Pow2(e.op) <= |tab|
    ensures FoundOk(kind, lens, Find(tab, root, hold), Low(hold, MAXBITS))
  {
    hide Low, High, Prefixes, Pow2, Means, NoneAfter;
    var x := Low(hold, MAXBITS);
    assert WordOk(kind, lens, tab, root, x);
    LowLow(hold, root, MAXBITS);
    HighLow(hold, root, MAXBITS - root);
    assert root + (MAXBITS - root) == MAXBITS;
    var e := tab[Low(hold, root)];
    assert e == tab[Low(x, root)];
    if IsLink(e) {
      LowLow(High(hold, root), e.op, MAXBITS - root);
      assert Low(High(x, root), e.op) == Low(High(hold, root), e.op);
      var f := tab[e.val + Low(High(hold, root), e.op)];
      assert Finds(kind, lens, f, root, x);
      var s: nat :| Prefixes(lens, s, x) && FoundBy(kind, lens, f, root, s);
      assert SymbolOf(kind, lens, Find(tab, root, hold), s);
    } else if Finds(kind, lens, e, 0, x) {
      var s: nat :| Prefixes(lens, s, x) && FoundBy(kind, lens, e, 0, s);
      assert SymbolOf(kind, lens, Find(tab, root, hold), s);
    }
  }

  /** With no code beginning with the next bit, the stream holds no code here. */
  lemma NoneHere(lens: seq<nat>, b: seq<bool>, pos: nat)
    requires ValidLengths(lens) && !OverSubscribed(lens) && pos < |b|
    requires NoneAfter(lens, Lsb(b, pos, 1))
    ensures DecodeSym(lens, b, pos) == NoCode
  {
    hide CodeOf, Low, Lsb, Msb, Kraft, Prefixes, Pow2, Rev;
    forall s: nat
      ensures !CodeHere(lens, s, b, pos) && !CodeBegun(lens, s, b, pos)
    {
      if s < |lens| && lens[s] > 0 {
        CodeInWidth(lens, s);
        if CodeHere(lens, s, b, pos) {
          HerePrefixes(lens, s, b, pos, lens[s]);
          LowOfBits(b, pos, 1, lens[s]);
        }
        if CodeBegun(lens, s, b, pos) {
          BegunWord(lens, s, b, pos);
        }
      }
    }
  }

  /** A code that has begun is begun by the bits there are. */
  lemma BegunWord(lens: seq<nat>, s: nat, b: seq<bool>, pos: nat)
    requires pos < |b| && s < |lens| && CodeOf(lens, s) < Pow2(lens[s]) && CodeBegun(lens, s, b, pos)
    ensures var y := Rev(lens[s], CodeOf(lens, s)); Prefixes(lens, s, y) && Low(y, 1) == Lsb(b, pos, 1)
  {
    hide CodeOf, Low, High, Lsb, Msb, Pow2, Rev, Shl;
    var n, k, c := lens[s], |b| - pos, CodeOf(lens, s);
    var y := Rev(n, c);
    LowSmall(y, n);
    // the reversed code starts with the reversal of its top k bits, which are the input
    RevSplit(n - k, k, c);
    assert n - k + k == n;
    RevLsb(b, pos, k);
    RevRev(k, Lsb(b, pos, k));
    assert Rev(k, High(c, n - k)) == Lsb(b, pos, k);
    Join(Lsb(b, pos, k), Rev(n - k, c), k);
    LowLow(y, 1, k);
    LowOfBits(b, pos, 1, k);
  }

  /** An entry whose code bits are all at hand names the next symbol of the stream. */
  lemma EntryTells(kind: Kind, lens: seq<nat>, f: Found, b: seq<bool>, pos: nat, bits: nat)
    requires ValidLengths(lens) && !OverSubscribed(lens) && pos + bits <= |b|
    requires FoundOk(kind, lens, f, Low(Lsb(b, pos, bits), MAXBITS)) && f.n <= bits && 0 < f.n
    ensures pos <= |b| && match DecodeSym(lens, b, pos)
            case Sym(s, n) => n == f.n && SymbolOf(kind, lens, f, s)
            case NoCode => f == Found(INVALID, 1)
            case CutShort => false
  {
    hide CodeOf, Low, Lsb, Msb, Kraft, Prefixes, Pow2, NoneAfter, Means;
    var hold := Lsb(b, pos, bits);
    var x := Low(hold, MAXBITS);
    if s: nat :| Prefixes(lens, s, x) && SymbolOf(kind, lens, f, s) {
      CodeInWidth(lens, s);
      PrefixesLow(lens, s, hold);
      HerePrefixes(lens, s, b, pos, bits);
      DecodeHere(lens, s, b, pos);
    } else {
      LowLow(hold, 1, MAXBITS);
      LowOfBits(b, pos, 1, bits);
      NoneHere(lens, b, pos);
    }
  }

  lemma PrefixesLow(lens: seq<nat>, s: nat, x: nat)
    requires s < |lens| && lens[s] <= MAXBITS
    ensures Prefixes(lens, s, Low(x, MAXBITS)) <==> Prefixes(lens, s, x)
  {
    hide Low, CodeOf, Rev;
    LowLow(x, lens[s], MAXBITS);
  }

  /** When the stream has no more bits, an entry that wants more means the code is cut off. */
  lemma EntryWaits(kind: Kind, lens: seq<nat>, f: Found, b: seq<bool>, pos: nat, bits: nat)
    requires ValidLengths(lens) && !OverSubscribed(lens) && pos + bits == |b|
    requires FoundOk(kind, lens, f, Low(Lsb(b, pos, bits), MAXBITS)) && f.n > bits
    ensures DecodeSym(lens, b, pos) == CutShort
  {
    hide CodeOf, Low, Lsb, Msb, Kraft, Prefixes, Pow2, NoneAfter, Means, High;
    var hold := Lsb(b, pos, bits);
    var x := Low(hold, MAXBITS);
    if s: nat :| Prefixes(lens, s, x) && SymbolOf(kind, lens, f, s) {
      CodeInWidth(lens, s);
      PrefixesLow(lens, s, hold);
      CutOff(lens, s, b, pos, bits);
      forall t: nat
        ensures !CodeHere(lens, t, b, pos)
      {
        if CodeHere(lens, t, b, pos) {
          CodeInWidth(lens, t);
          HerePrefixes(lens, t, b, pos, bits);
          PrefixFree(lens, s, t, hold);
        }
      }
    }
  }

  /** A code of more than bits bits that begins with all remaining bits has begun. */
  lemma CutOff(lens: seq<nat>, s: nat, b: seq<bool>, pos: nat, bits: nat)
    requires pos + bits == |b| && s < |lens| && lens[s] > bits && CodeOf(lens, s) < Pow2(lens[s])
    requires Prefixes(lens, s, Lsb(b, pos, bits))
    ensures CodeBegun(lens, s, b, pos)
  {
    hide CodeOf, Low, Lsb, Msb, Pow2, Rev, Shl, High;
    var n, c, x := lens[s], CodeOf(lens, s), Lsb(b, pos, bits);
    Pow2Mono(bits, n);
    LowSmall(x, n);
    LowSmall(x, bits);
    RevRev(n, c);
    RevSplit(bits, n - bits, x);
    assert bits + (n - bits) == n;
    RevZero(n - bits);
    Join(0, Rev(bits, x), n - bits);
    RevLsb(b, pos, bits);
    Pow2Some(n - bits);
  }

  lemma Pow2Some(n: nat)
    ensures Pow2(n) > 0
  {
  }

  /** A code found with more bits was found before if its bits were there before. */
  lemma EntryStable(kind: Kind, lens: seq<nat>, f0: Found, f: Found, b: seq<bool>, pos: nat, bits0: nat, bits: nat)
    requires ValidLengths(lens) && !OverSubscribed(lens) && bits0 <= bits && pos + bits <= |b|
    requires FoundOk(kind, lens, f0, Low(Lsb(b, pos, bits0), MAXBITS)) && f0.n > bits0
    requires FoundOk(kind, lens, f, Low(Lsb(b, pos, bits), MAXBITS)) && 0 < f.n
    ensures f.n > bits0
  {
    hide CodeOf, Low, Lsb, Msb, Kraft, Prefixes, Pow2, NoneAfter, Means, High;
    var h0, h := Lsb(b, pos, bits0), Lsb(b, pos, bits);
    if f.n <= bits0 {
      LowOfBits(b, pos, f.n, bits);
      LowOfBits(b, pos, f.n, bits0);
      LowOfBits(b, pos, 1, bits);
      LowOfBits(b, pos, 1, bits0);
      LowLow(h0, 1, MAXBITS);
      LowLow(h, 1, MAXBITS);
      var s0: nat :| Prefixes(lens, s0, Low(h0, MAXBITS)) && SymbolOf(kind, lens, f0, s0);
      PrefixesLow(lens, s0, h0);
      if s: nat :| Prefixes(lens, s, Low(h, MAXBITS)) && SymbolOf(kind, lens, f, s) {
        PrefixesLow(lens, s, h);
        SamePrefix(lens, s, h, h0);
        PrefixFree(lens, s, s0, h0);
      } else {
        NoneSuch(lens, s0, h0, Low(h, 1));
      }
    }
  }

  lemma SamePrefix(lens: seq<nat>, s: nat, x: nat, y: nat)
    requires s < |lens| && Low(x, lens[s]) == Low(y, lens[s])
    ensures Prefixes(lens, s, x) <==> Prefixes(lens, s, y)
  {
  }

  lemma NoneSuch(lens: seq<nat>, s: nat, y: nat, bit: nat)
    requires NoneAfter(lens, bit) && Low(y, 1) == bit
    ensures !Prefixes(lens, s, y)
  {
  }

  /** How many bits the symbol that hold leads to takes up. */
  function Needs(tab: seq<Entry>, root: nat, hold: nat): nat {
    FindAny(tab, root, hold).n
  }

  /** What a fetched entry says: it stands for the next symbol, of n bits, or for none. */
  ghost predicate Fetched(kind: Kind, lens: seq<nat>, e: Entry, n: nat, b: seq<bool>, pos: nat)
    requires pos <= |b|
  {
    var r := DecodeSym(lens, b, pos);
    (r.Sym? && r.n == n && r.s < Limit(kind) && Means(kind, e, r.s)) || (r.NoCode? && e == INVALID && n == 1)
  }

  /** The lookup steps of inflate on a hold: the root entry, then through a link. */
  lemma LookupSteps(kind: Kind, lens: seq<nat>, tab: seq<Entry>, root: nat, hold: nat)
    requires GoodTable(kind, lens, tab, root)
    ensures Pow2(root) <= |tab|
    ensures FoundOk(kind, lens, FindAny(tab, root, hold), Low(hold, MAXBITS))
    ensures 0 < Needs(tab, root, hold) <= MAXBITS
    ensures var e := tab[Low(hold, root)];
            if IsLink(e) then
              e.bits == root && High(Low(hold, e.bits + e.op), e.bits) < Pow2(e.op)
              && e.val + Pow2(e.op) <= |tab|
              && FindAny(tab, root, hold).e == tab[e.val + High(Low(hold, e.bits + e.op), e.bits)]
              && Needs(tab, root, hold) == e.bits + tab[e.val + High(Low(hold, e.bits + e.op), e.bits)].bits
            else FindAny(tab, root, hold).e == e && Needs(tab, root, hold) == e.bits
  {
    hide Low, High, Pow2, Kraft, Means, Prefixes, NoneAfter, TableOk;
    FindOk(kind, lens, tab, root, hold);
    TableRoot(kind, lens, tab, root);
    var e := tab[Low(hold, root)];
    HighLow(hold, root, e.op);
    var f := Find(tab, root, hold);
    if s: nat :| Prefixes(lens, s, Low(hold, MAXBITS)) && SymbolOf(kind, lens, f, s) {
      PrefixesCoded(lens, s, Low(hold, MAXBITS));
    }
  }

  lemma TableRoot(kind: Kind, lens: seq<nat>, tab: seq<Entry>, root: nat)
    requires TableOk(kind, lens, tab, root)
    ensures 1 <= root <= MAXBITS && Pow2(root) <= |tab|
  {
  }

  lemma PrefixesCoded(lens: seq<nat>, s: nat, x: nat)
    requires Prefixes(lens, s, x)
    ensures s < |lens| && lens[s] > 0
  {
  }

  /** Find with a harmless value for tables that are not well formed. */
  function FindAny(tab: seq<Entry>, root: nat, hold: nat): Found {
    if Pow2(root) <= |tab| && (var e := tab[Low(hold, root)]; IsLink(e) ==> e.val + Pow2(e.op) <= |tab|)
    then Find(tab, root, hold) else Found(INVALID, 0)
  }
}
