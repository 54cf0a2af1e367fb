/**
 Why the table filling of inflate_table is right: entering the k-th code in sorted
 order extends the set of correctly decoded words from those whose reversal lies below
 Start(k) to those below Start(k + 1), and every new sub-table is paid for.
 */
module TableProof {
  import opened Bits
  import opened Huffman
  import opened TableSpec

  /** The parameters of one table build that do not change while it runs. */
  datatype Job = Job(kind: Kind, lens: seq<nat>, root: nat, max: nat)

  ghost predicate ValidJob(j: Job) {
    && ValidLengths(j.lens) && |j.lens| <= Limit(j.kind) && !OverSubscribed(j.lens)
    && 1 <= j.root <= MAXBITS && 1 <= j.max <= MAXBITS
  }

  /** The table tab' is tab with e copied to the indices of one (sub-)table that end in h. */
  ghost predicate Replicated(tab: seq<Entry>, tab': seq<Entry>, next: nat, curr: nat, w: nat, h: nat, e: Entry) {
    && |tab'| == |tab|
    && forall i :: 0 <= i < |tab| ==>
         tab'[i] == if next <= i < next + Pow2(curr) && Low(i - next, w) == h then e else tab[i]
  }

  /** Every word below the k-th code is decoded correctly. */
  ghost predicate Entered(j: Job, tab: seq<Entry>, k: nat)
    requires k <= |Order(j.lens)| && Pow2(j.root) <= |tab|
  {
    forall x: nat :: x < Pow2(MAXBITS) && Rev(MAXBITS, x) < Start(j.lens, k) ==>
      EntryOk(j.kind, j.lens, tab, j.root, x)
  }

  /** Links made so far lead beyond the root table and, but for the current one, below next. */
  ghost predicate LinkOk(j: Job, tab: seq<Entry>, low: int, next: nat, curr: nat, i: nat)
    requires i < |tab|
  {
    IsLink(tab[i]) ==>
      Pow2(j.root) <= tab[i].val
      && if i == low then tab[i] == Entry(curr, j.root, next) else tab[i].val + Pow2(tab[i].op) <= next
  }

  ghost predicate Links(j: Job, tab: seq<Entry>, k: nat, low: int, next: nat, curr: nat)
    requires k <= |Order(j.lens)| && Pow2(j.root) <= |tab|
  {
    forall i: nat :: i < Pow2(j.root) && Rev(MAXBITS, i) < Start(j.lens, k) ==>
      LinkOk(j, tab, low, next, curr, i)
  }

  /** The words that share a root index are those of one block of the 15-bit interval. */
  lemma SameRoot(root: nat, i: nat, x: nat)
    requires root <= MAXBITS && i < Pow2(root)
    ensures Low(x, root) == i <==> Rev(MAXBITS, i) <= Rev(MAXBITS, x) < Rev(MAXBITS, i) + Pow2(MAXBITS - root)
    ensures Rev(MAXBITS, i) == Shl(Rev(root, i), MAXBITS - root)
  {
    var m := MAXBITS - root;
    PrefixInterval(m, root, i, x);
    assert root + m == MAXBITS;
    RevSplit(root, m, i);
    LowSmall(i, root);
    RevZero(m);
  }

  lemma RootOf(root: nat, x: nat) returns (i: nat)
    requires root <= MAXBITS
    ensures i == Low(x, root) && i < Pow2(root)
    ensures Rev(MAXBITS, i) <= Rev(MAXBITS, x) < Rev(MAXBITS, i) + Pow2(MAXBITS - root)
  {
    i := Low(x, root);
    SameRoot(root, i, x);
  }

  // ----------------------------------------------------------- entering codes

  lemma EnterRootWord(j: Job, tab: seq<Entry>, tab': seq<Entry>, k: nat, s: nat, x: nat)
    requires ValidJob(j) && k < |Order(j.lens)| && s == Order(j.lens)[k]
    requires j.lens[s] <= j.root && Pow2(j.root) <= |tab|
    requires Replicated(tab, tab', 0, j.root, j.lens[s], Rev(j.lens[s], CodeOf(j.lens, s)), Leaf(j.kind, s, j.lens[s]))
    requires Entered(j, tab, k) && Links(j, tab, k, -1, 0, j.root)
    requires x < Pow2(MAXBITS) && Rev(MAXBITS, x) < Start(j.lens, k + 1)
    ensures EntryOk(j.kind, j.lens, tab', j.root, x)
  {
    var n := j.lens[s];
    var i := RootOf(j.root, x);
    LowLow(x, n, j.root);
    PrefixesInterval(j.lens, k, x);
    if Prefixes(j.lens, s, x) {
      LeafIsNotLink(j.kind, s, n);
      assert FoundBy(j.kind, j.lens, tab'[i], 0, s);
    } else {
      assert tab'[i] == tab[i];
      assert EntryOk(j.kind, j.lens, tab, j.root, x);
      assert LinkOk(j, tab, -1, 0, j.root, i);
    }
  }

  /** The reversed code huff ends in root index low and continues with sub-table bits h. */
  ghost predicate Divided(huff: nat, root: nat, low: nat, h: nat) {
    low < Pow2(root) && Low(huff, root) == low && High(huff, root) == h
  }

  /** Where a word looks in a sub-table, and when that is a copy of the k-th entry. */
  lemma SubHit(j: Job, k: nat, s: nat, huff: nat, low: nat, h: nat, curr: nat, x: nat) returns (i: nat, y: nat)
    requires ValidJob(j) && k < |Order(j.lens)| && s == Order(j.lens)[k]
    requires huff == Rev(j.lens[s], CodeOf(j.lens, s)) && Divided(huff, j.root, low, h)
    requires j.root < j.lens[s] <= j.root + curr
    ensures i == Low(x, j.root) < Pow2(j.root) && y == Low(High(x, j.root), curr) < Pow2(curr)
    ensures Prefixes(j.lens, s, x) <==> i == low && Low(y, j.lens[s] - j.root) == h
    ensures Prefixes(j.lens, s, x) <==> Start(j.lens, k) <= Rev(MAXBITS, x) < Start(j.lens, k + 1)
    ensures Rev(MAXBITS, i) <= Rev(MAXBITS, x)
  {
    hide Kraft, Start, Order, CodeOf, Rev;
    i := RootOf(j.root, x);
    SubIndex(x, huff, j.root, j.lens[s] - j.root, curr);
    y := Low(High(x, j.root), curr);
    assert j.root + (j.lens[s] - j.root) == j.lens[s];
    PrefixesInterval(j.lens, k, x);
  }

  lemma EnterSubWord(j: Job, tab: seq<Entry>, tab': seq<Entry>, k: nat, s: nat, huff: nat,
                     low: nat, h: nat, next: nat, curr: nat, x: nat)
    requires ValidJob(j) && k < |Order(j.lens)| && s == Order(j.lens)[k]
    requires huff == Rev(j.lens[s], CodeOf(j.lens, s)) && Divided(huff, j.root, low, h)
    requires j.root < j.lens[s] <= j.root + curr <= MAXBITS
    requires Pow2(j.root) <= next && next + Pow2(curr) <= |tab|
    requires tab[low] == Entry(curr, j.root, next)
    requires Replicated(tab, tab', next, curr, j.lens[s] - j.root, h, Leaf(j.kind, s, j.lens[s] - j.root))
    requires Entered(j, tab, k) && Links(j, tab, k, low, next, curr)
    requires x < Pow2(MAXBITS) && Rev(MAXBITS, x) < Start(j.lens, k + 1)
    ensures EntryOk(j.kind, j.lens, tab', j.root, x)
  {
    hide Replicated, EntryOk, CodeOf, Order, Start, Low, High, Pow2, Rev, Leaf, LinkOk, Prefixes, Kraft;
    var i, y := SubHit(j, k, s, huff, low, h, curr, x);
    var w := j.lens[s] - j.root;
    if Prefixes(j.lens, s, x) {
      EntryGiven(j, tab, tab', low, h, next, curr, s, x, y);
    } else {
      EntryKept(j, tab, tab', low, h, next, curr, w, Leaf(j.kind, s, w), x, i, y);
    }
  }

  lemma EntryGiven(j: Job, tab: seq<Entry>, tab': seq<Entry>, low: nat, h: nat, next: nat, curr: nat,
                   s: nat, x: nat, y: nat)
    requires Pow2(j.root) <= next && next + Pow2(curr) <= |tab| && 0 < curr && 0 < j.root && j.root + curr <= MAXBITS
    requires s < |j.lens| && s < Limit(j.kind) && j.lens[s] > j.root && Prefixes(j.lens, s, x)
    requires Replicated(tab, tab', next, curr, j.lens[s] - j.root, h, Leaf(j.kind, s, j.lens[s] - j.root))
    requires low == Low(x, j.root) < Pow2(j.root) && y == Low(High(x, j.root), curr) < Pow2(curr)
    requires Low(y, j.lens[s] - j.root) == h && tab[low] == Entry(curr, j.root, next)
    ensures EntryOk(j.kind, j.lens, tab', j.root, x)
  {
    assert next + y - next == y;
    assert FoundBy(j.kind, j.lens, tab'[next + y], j.root, s);
    assert tab'[low] == tab[low];
  }

  /** A word that is not given the copied entry still finds what it found before. */
  lemma EntryKept(j: Job, tab: seq<Entry>, tab': seq<Entry>, low: nat, h: nat, next: nat, curr: nat,
                  w: nat, e: Entry, x: nat, i: nat, y: nat)
    requires Pow2(j.root) <= next && next + Pow2(curr) <= |tab|
    requires Replicated(tab, tab', next, curr, w, h, e)
    requires i == Low(x, j.root) < Pow2(j.root) && y == Low(High(x, j.root), curr) < Pow2(curr)
    requires !(i == low && Low(y, w) == h)
    requires EntryOk(j.kind, j.lens, tab, j.root, x) && LinkOk(j, tab, low, next, curr, i)
    ensures EntryOk(j.kind, j.lens, tab', j.root, x)
  {
    assert tab'[i] == tab[i];
    if i == low {
      assert next + y - next == y;
      assert tab'[next + y] == tab[next + y];
    }
  }

  /** A word begins with the root + w bits of huff exactly when its root index and the
      low w bits of its sub-table index are those of huff. */
  lemma SubIndex(x: nat, huff: nat, root: nat, w: nat, curr: nat)
    requires w <= curr
    ensures var y := Low(High(x, root), curr);
            0 <= y < Pow2(curr) &&
            (Low(x, root + w) == huff <==>
              Low(x, root) == Low(huff, root) && Low(y, w) == High(huff, root))
  {
    hide Pow2, Shl;
    LowLow(High(x, root), w, curr);
    HighLow(x, root, w);
    LowLow(x, root, root + w);
    LowHigh(huff, root);
    LowHigh(Low(x, root + w), root);
  }

  lemma EnterRoot(j: Job, tab: seq<Entry>, tab': seq<Entry>, k: nat, s: nat)
    requires ValidJob(j) && k < |Order(j.lens)| && s == Order(j.lens)[k]
    requires j.lens[s] <= j.root && Pow2(j.root) <= |tab|
    requires Replicated(tab, tab', 0, j.root, j.lens[s], Rev(j.lens[s], CodeOf(j.lens, s)), Leaf(j.kind, s, j.lens[s]))
    requires Entered(j, tab, k) && Links(j, tab, k, -1, 0, j.root)
    ensures Entered(j, tab', k + 1) && Links(j, tab', k + 1, -1, 0, j.root)
  {
    forall x: nat | x < Pow2(MAXBITS) && Rev(MAXBITS, x) < Start(j.lens, k + 1)
      ensures EntryOk(j.kind, j.lens, tab', j.root, x)
    {
      EnterRootWord(j, tab, tab', k, s, x);
    }
    LeafIsNotLink(j.kind, s, j.lens[s]);
    forall i: nat | i < Pow2(j.root) && Rev(MAXBITS, i) < Start(j.lens, k + 1)
      ensures LinkOk(j, tab', -1, 0, j.root, i)
    {
      RootBelow(j, k, s, i);
    }
  }

  /** A root index below the (k+1)-st start is below the k-th or ends in the k-th code. */
  lemma RootBelow(j: Job, k: nat, s: nat, i: nat)
    requires ValidJob(j) && k < |Order(j.lens)| && s == Order(j.lens)[k]
    requires i < Pow2(j.root) && Rev(MAXBITS, i) < Start(j.lens, k + 1)
    ensures Rev(MAXBITS, i) < Start(j.lens, k) || Low(i, j.lens[s]) == Rev(j.lens[s], CodeOf(j.lens, s))
  {
    PrefixesInterval(j.lens, k, i);
  }

  lemma EnterSub(j: Job, tab: seq<Entry>, tab': seq<Entry>, k: nat, s: nat, huff: nat,
                 low: nat, h: nat, next: nat, curr: nat)
    requires ValidJob(j) && k < |Order(j.lens)| && s == Order(j.lens)[k]
    requires huff == Rev(j.lens[s], CodeOf(j.lens, s)) && Divided(huff, j.root, low, h)
    requires j.root < j.lens[s] <= j.root + curr <= MAXBITS
    requires Pow2(j.root) <= next && next + Pow2(curr) <= |tab|
    requires tab[low] == Entry(curr, j.root, next)
    requires Replicated(tab, tab', next, curr, j.lens[s] - j.root, h, Leaf(j.kind, s, j.lens[s] - j.root))
    requires Entered(j, tab, k) && Links(j, tab, k, low, next, curr)
    ensures Entered(j, tab', k + 1) && Links(j, tab', k + 1, low, next, curr)
    ensures tab'[low] == tab[low]
  {
    forall x: nat | x < Pow2(MAXBITS) && Rev(MAXBITS, x) < Start(j.lens, k + 1)
      ensures EntryOk(j.kind, j.lens, tab', j.root, x)
    {
      EnterSubWord(j, tab, tab', k, s, huff, low, h, next, curr, x);
    }
    EnterSubLinks(j, tab, tab', k, s, huff, low, h, next, curr);
  }

  lemma EnterSubLinks(j: Job, tab: seq<Entry>, tab': seq<Entry>, k: nat, s: nat, huff: nat,
                      low: nat, h: nat, next: nat, curr: nat)
    requires ValidJob(j) && k < |Order(j.lens)| && s == Order(j.lens)[k] && j.root < j.lens[s]
    requires huff == Rev(j.lens[s], CodeOf(j.lens, s)) && Divided(huff, j.root, low, h)
    requires Pow2(j.root) <= next && next + Pow2(curr) <= |tab|
    requires tab[low] == Entry(curr, j.root, next)
    requires |tab'| == |tab| && tab'[..Pow2(j.root)] == tab[..Pow2(j.root)]
    requires Links(j, tab, k, low, next, curr)
    ensures Links(j, tab', k + 1, low, next, curr)
  {
    forall i: nat | i < Pow2(j.root) && Rev(MAXBITS, i) < Start(j.lens, k + 1)
      ensures LinkOk(j, tab', low, next, curr, i)
    {
      assert tab'[i] == tab'[..Pow2(j.root)][i] == tab[i];
      if i != low {
        SubBlock(j, k, s, huff, low, i);
        assert LinkOk(j, tab, low, next, curr, i);
      }
    }
  }

  /** The k-th code, longer than root, lies inside the block of its root index. */
  lemma SubBlock(j: Job, k: nat, s: nat, huff: nat, low: nat, i: nat)
    requires ValidJob(j) && k < |Order(j.lens)| && s == Order(j.lens)[k] && j.root < j.lens[s]
    requires huff == Rev(j.lens[s], CodeOf(j.lens, s)) && Low(huff, j.root) == low && low < Pow2(j.root)
    requires i < Pow2(j.root)
    ensures Rev(MAXBITS, low) <= Start(j.lens, k) < Start(j.lens, k + 1) <= Rev(MAXBITS, low) + Pow2(MAXBITS - j.root)
    ensures i != low && Rev(MAXBITS, i) < Start(j.lens, k + 1) ==> Rev(MAXBITS, i) < Start(j.lens, k)
  {
    HuffStart(j.lens, k, s, huff);
    SameRoot(j.root, low, huff);
    // the last word of the code's interval still has root index low
    var top := Start(j.lens, k + 1) - 1;
    CodeFits(j.lens, k);
    var x := Rev(MAXBITS, top);
    RevRev(MAXBITS, top);
    PrefixesInterval(j.lens, k, x);
    LowLow(x, j.root, j.lens[s]);
    SameRoot(j.root, low, x);
    PrefixesInterval(j.lens, k, i);
    if Prefixes(j.lens, s, i) {
      LowLow(i, j.root, j.lens[s]);
      LowSmall(i, j.root);
    }
  }

  /** As a word, the reversed k-th code is the first one that begins with that code. */
  lemma HuffStart(lens: seq<nat>, k: nat, s: nat, huff: nat)
    requires k < |Order(lens)| && s == Order(lens)[k] && !OverSubscribed(lens)
    requires huff == Rev(lens[s], CodeOf(lens, s))
    ensures Rev(MAXBITS, huff) == Start(lens, k)
    ensures huff < Pow2(lens[s])
  {
    var n, c := lens[s], CodeOf(lens, s);
    CodeFits(lens, k);
    CodeStart(lens, k);
    RevShifted(MAXBITS - n, n, c);
    assert MAXBITS - n + n == MAXBITS;
    assert Rev(MAXBITS, Start(lens, k)) == huff;
    StartMono(lens, k, k + 1);
    RevRev(MAXBITS, Start(lens, k));
  }

  // --------------------------------------------------------- new sub-tables

  /** While all codes so far fit the root table, the next one starts on a root boundary. */
  lemma {:induction false} StartAligned(lens: seq<nat>, root: nat, k: nat) returns (m: nat)
    requires k <= |Order(lens)| && root <= MAXBITS
    requires forall i :: 0 <= i < k ==> lens[Order(lens)[i]] <= root
    ensures Start(lens, k) == Shl(m, MAXBITS - root)
  {
    hide Sorted, Shl, Pow2;
    if k == 0 {
      m := 0;
      ShlOne(MAXBITS - root);
    } else {
      var m' := StartAligned(lens, root, k - 1);
      var n := lens[Order(lens)[k - 1]];
      m := m' + Pow2(root - n);
      ShlPlus(m', Pow2(root - n), MAXBITS - root);
      ShlPow2(root - n, MAXBITS - root);
      assert root - n + (MAXBITS - root) == MAXBITS - n;
    }
  }

  /** A code that starts on a root boundary starts the block of its root index. */
  lemma BlockAligned(root: nat, m: nat, huff: nat, low: nat)
    requires root <= MAXBITS && low == Low(huff, root) && Rev(MAXBITS, huff) == Shl(m, MAXBITS - root)
    ensures low < Pow2(root) && Rev(MAXBITS, low) == Rev(MAXBITS, huff)
  {
    hide Shl, Rev, Low;
    var w := MAXBITS - root;
    SameRoot(root, low, huff);
    ShlMono(Rev(root, low), m, w);
    ShlMono(m, Rev(root, low), w);
  }

  /** After the last code of a block, the next code starts the block of its own root index. */
  lemma NextBlock(j: Job, k: nat, huff: nat, low: nat, low': nat)
    requires ValidJob(j) && k <= |Order(j.lens)| && low < Pow2(j.root)
    requires Rev(MAXBITS, low) <= Start(j.lens, k) <= Rev(MAXBITS, low) + Pow2(MAXBITS - j.root)
    requires Rev(MAXBITS, huff) == Start(j.lens, k) && low' == Low(huff, j.root) && low' != low
    ensures low' < Pow2(j.root) && Rev(MAXBITS, low') == Start(j.lens, k) == Rev(MAXBITS, low) + Pow2(MAXBITS - j.root)
  {
    hide Shl, Rev, Low, Pow2;
    var w := MAXBITS - j.root;
    SameRoot(j.root, low, huff);
    var r := Rev(j.root, low);
    ShlPlus(r, 1, w);
    ShlOne(w);
    BlockAligned(j.root, r + 1, huff, low');
  }

  /** Pointing a fresh root entry at a fresh sub-table disturbs nothing entered so far. */
  lemma Linked(j: Job, tab: seq<Entry>, tab': seq<Entry>, k: nat, low: int, next: nat, curr: nat,
               low': nat, next': nat, curr': nat)
    requires ValidJob(j) && k <= |Order(j.lens)|
    requires low' < Pow2(j.root) <= next' && next' == next + Pow2(curr) <= |tab|
    requires Rev(MAXBITS, low') == Start(j.lens, k) && 0 < curr' && j.root + curr' <= MAXBITS
    requires tab' == tab[low' := Entry(curr', j.root, next')]
    requires Entered(j, tab, k) && Links(j, tab, k, low, next, curr)
    ensures Entered(j, tab', k) && Links(j, tab', k, low', next', curr')
  {
    hide Rev, Low, High, Start, Finds, Pow2;
    forall x: nat | x < Pow2(MAXBITS) && Rev(MAXBITS, x) < Start(j.lens, k)
      ensures EntryOk(j.kind, j.lens, tab', j.root, x)
    {
      var i := RootOf(j.root, x);
      assert EntryOk(j.kind, j.lens, tab, j.root, x);
      assert LinkOk(j, tab, low, next, curr, i);
    }
    forall i: nat | i < Pow2(j.root) && Rev(MAXBITS, i) < Start(j.lens, k)
      ensures LinkOk(j, tab', low', next', curr', i)
    {
      assert LinkOk(j, tab, low, next, curr, i);
    }
  }

  // --------------------------------------------------- the size of sub-tables

  /** Sub-tables of width curr for the block that starts at position first are big enough
      for the block, and no bigger than one of its codes needs. */
  ghost predicate Sized(j: Job, first: nat, curr: nat)
    requires first < |Order(j.lens)| && j.root + curr <= MAXBITS
  {
    var end := Start(j.lens, first) + Pow2(MAXBITS - j.root);
    && j.root < j.lens[Order(j.lens)[first]] <= j.root + curr <= j.max
    && end <= Kraft(j.lens, j.root + curr)
    && (j.lens[Order(j.lens)[first]] < j.root + curr ==> Kraft(j.lens, j.root + curr - 1) < end)
  }

  /** Every code of a block fits its sub-table. */
  lemma BlockFits(j: Job, first: nat, k: nat, curr: nat)
    requires ValidJob(j) && first <= k < |Order(j.lens)| && j.root + curr <= MAXBITS && Sized(j, first, curr)
    requires Start(j.lens, k) < Start(j.lens, first) + Pow2(MAXBITS - j.root)
    ensures j.root < j.lens[Order(j.lens)[k]] <= j.root + curr
  {
    hide Sorted, Kraft, Start, Pow2;
    var L := j.root + curr;
    StartKraft(j.lens, L);
    LengthsAscend(j.lens, first, k);
    if k >= |Sorted(j.lens, L)| {
      StartMono(j.lens, |Sorted(j.lens, L)|, k);
    }
    OrderClass(j.lens, k, L);
  }

  /** The first code after a block is at least as long as the block's longest. */
  lemma AfterBlock(j: Job, first: nat, k: nat, curr: nat)
    requires ValidJob(j) && first <= k < |Order(j.lens)| && j.root + curr <= MAXBITS && Sized(j, first, curr)
    requires Start(j.lens, k) >= Start(j.lens, first) + Pow2(MAXBITS - j.root)
    ensures j.lens[Order(j.lens)[k]] >= j.root + curr
  {
    hide Sorted, Kraft, Start, Pow2;
    var L := j.root + curr;
    LengthsAscend(j.lens, first, k);
    if j.lens[Order(j.lens)[first]] < L {
      StartKraft(j.lens, L - 1);
      if k < |Sorted(j.lens, L - 1)| {
        StartMono(j.lens, k, |Sorted(j.lens, L - 1)|);
      }
      OrderClass(j.lens, k, L - 1);
    }
  }

  /** Codes of length at least n advance by at most 2^(15-n) each. */
  lemma {:induction false} StartSlow(lens: seq<nat>, first: nat, k: nat, n: nat)
    requires first <= k <= |Order(lens)| && n <= MAXBITS
    requires first < |Order(lens)| ==> n <= lens[Order(lens)[first]]
    ensures Start(lens, k) <= Start(lens, first) + Shl(k - first, MAXBITS - n)
    decreases k
  {
    hide Sorted, Shl, Pow2;
    ShlOne(MAXBITS - n);
    if first < k {
      StartSlow(lens, first, k - 1, n);
      LengthsAscend(lens, first, k - 1);
      Pow2Mono(MAXBITS - lens[Order(lens)[k - 1]], MAXBITS - n);
      ShlPlus(k - 1 - first, 1, MAXBITS - n);
    }
  }

  /** A block of codes of one length root + curr has 2^curr of them. */
  lemma UniformCount(j: Job, first: nat, k: nat, curr: nat)
    requires ValidJob(j) && first <= k <= |Order(j.lens)| && first < |Order(j.lens)|
    requires j.root + curr <= MAXBITS && j.lens[Order(j.lens)[first]] == j.root + curr
    requires Start(j.lens, k) >= Start(j.lens, first) + Pow2(MAXBITS - j.root)
    ensures first + Pow2(curr) <= k
  {
    hide Sorted, Shl, Pow2, Start;
    var w := MAXBITS - (j.root + curr);
    StartSlow(j.lens, first, k, j.root + curr);
    ShlPow2(curr, w);
    assert curr + w == MAXBITS - j.root;
    if k - first < Pow2(curr) {
      ShlMono(k - first, Pow2(curr), w);
      Pow2Positive(w);
    }
  }

  lemma Pow2Positive(n: nat)
    ensures Pow2(n) > 0
  {
  }

  /** The codes charged for by the time the block at first has its sub-table: each code of
      a block of one length pays for one entry. */
  ghost function Charged(j: Job, first: nat, curr: nat): nat
    requires first < |Order(j.lens)|
  {
    if j.lens[Order(j.lens)[first]] == j.root + curr then first + Pow2(curr) else first
  }

  /** The space bound: root entries, one per charged code, and one sub-table of mixed
      lengths for each width from 2 up to curr. */
  ghost predicate Paid(j: Job, first: nat, curr: nat, used: nat)
    requires first < |Order(j.lens)|
  {
    used + 4 <= Pow2(j.root) + Charged(j, first, curr) + Pow2(curr + 1)
  }

  lemma FirstPaid(j: Job, first: nat, curr: nat)
    requires ValidJob(j) && first < |Order(j.lens)| && j.root + curr <= MAXBITS && Sized(j, first, curr)
    ensures Paid(j, first, curr, Pow2(j.root) + Pow2(curr))
  {
    if curr >= 2 {
      Pow2Mono(2, curr);
    }
  }

  lemma NextPaid(j: Job, first: nat, curr: nat, used: nat, k: nat, curr': nat)
    requires ValidJob(j) && first <= k < |Order(j.lens)|
    requires j.root + curr <= MAXBITS && Sized(j, first, curr) && Paid(j, first, curr, used)
    requires Start(j.lens, k) >= Start(j.lens, first) + Pow2(MAXBITS - j.root)
    requires j.root + curr' <= MAXBITS && Sized(j, k, curr')
    ensures Paid(j, k, curr', used + Pow2(curr'))
  {
    hide Sorted, Kraft, Start, Order, ValidJob;
    AfterBlock(j, first, k, curr);
    if j.lens[Order(j.lens)[first]] == j.root + curr {
      UniformCount(j, first, k, curr);
    }
    assert Charged(j, first, curr) <= k;
    assert Pow2(curr' + 1) == 2 * Pow2(curr');
    hide Pow2;
    if j.lens[Order(j.lens)[k]] == j.root + curr' {
      Pow2Mono(curr + 1, curr' + 1);
    } else {
      Pow2Mono(curr + 1, curr');
    }
  }

  /** No more codes are charged for than there are. */
  lemma PaidRoom(j: Job, first: nat, curr: nat, used: nat)
    requires ValidJob(j) && first < |Order(j.lens)|
    requires j.root + curr <= MAXBITS && Sized(j, first, curr) && Paid(j, first, curr, used)
    ensures used <= Room(j.root, j.max, |Order(j.lens)|)
  {
    hide Sorted, Kraft, Start, Pow2, Order;
    if j.lens[Order(j.lens)[first]] == j.root + curr {
      var top := |Sorted(j.lens, j.root + curr)|;
      StartKraft(j.lens, j.root + curr);
      OrderClass(j.lens, first, j.root + curr);
      UniformCount(j, first, top, curr);
    }
    Pow2Mono(curr + 1, 16 - j.root);
  }

  // ------------------------------------------------- the state of a table build

  /** The (sub-)table being filled: how many code bits led to it, its root index (-1 for
      the root table itself), where it is, its width, all space in use, and the position
      of its first code. */
  datatype Sub = Sub(drop: nat, low: int, next: nat, curr: nat, used: nat, first: nat)

  /** The codes before position k are in the table, and the space is accounted for. */
  ghost predicate Holds(j: Job, tab: seq<Entry>, k: nat, b: Sub) {
    && ValidJob(j) && k <= |Order(j.lens)| && Pow2(j.root) <= |tab|
    && b.used == b.next + Pow2(b.curr) <= |tab|
    && Entered(j, tab, k) && Links(j, tab, k, b.low, b.next, b.curr)
    && if b.drop == 0 then
         b.low == -1 && b.next == 0 && b.curr == j.root && RootCodes(j, k)
       else
         b.drop == j.root && j.root + b.curr <= MAXBITS && b.first <= k && b.first < |Order(j.lens)|
         && 0 <= b.low < Pow2(j.root) <= b.next && tab[b.low] == Entry(b.curr, j.root, b.next)
         && Rev(MAXBITS, b.low) == Start(j.lens, b.first)
         && Start(j.lens, k) <= Start(j.lens, b.first) + Pow2(MAXBITS - j.root)
         && Sized(j, b.first, b.curr) && Paid(j, b.first, b.curr, b.used)
  }

  ghost predicate RootCodes(j: Job, k: nat)
    requires k <= |Order(j.lens)|
  {
    forall i :: 0 <= i < k ==> j.lens[Order(j.lens)[i]] <= j.root
  }

  /** The code at position k belongs in the table being filled. */
  ghost predicate Current(j: Job, k: nat, b: Sub)
    requires k < |Order(j.lens)| && b.first < |Order(j.lens)| && j.root <= MAXBITS
  {
    if b.drop == 0 then j.lens[Order(j.lens)[k]] <= j.root
    else Start(j.lens, k) < Start(j.lens, b.first) + Pow2(MAXBITS - j.root)
  }

  /** What the code at position k, of length len and reversed to huff, is copied to. */
  ghost predicate CodeAt(j: Job, k: nat, len: nat, huff: nat) {
    k < |Order(j.lens)| && len == j.lens[Order(j.lens)[k]] && huff == Rev(len, CodeOf(j.lens, Order(j.lens)[k]))
  }

  /** In a sub-table, the current code has its root index and fits its width. */
  lemma CurrentFits(j: Job, tab: seq<Entry>, k: nat, b: Sub, len: nat, huff: nat)
    requires Holds(j, tab, k, b) && CodeAt(j, k, len, huff)
    requires b.first < |Order(j.lens)| && Current(j, k, b) && b.drop > 0
    ensures j.root < len <= j.root + b.curr && b.curr < 16
    ensures Divided(huff, j.root, b.low, High(huff, j.root))
    ensures huff < Pow2(len)
  {
    hide Sorted, Kraft, Rev, Low, High, Pow2, Entered, Links, CodeOf, Paid;
    BlockFits(j, b.first, k, b.curr);
    HuffStart(j.lens, k, Order(j.lens)[k], huff);
    StartMono(j.lens, b.first, k);
    SameRoot(j.root, b.low, huff);
  }

  /** Copying the k-th leaf into the table being filled takes the build to position k + 1. */
  lemma HoldsNext(j: Job, tab: seq<Entry>, tab': seq<Entry>, k: nat, b: Sub, len: nat, huff: nat)
    requires Holds(j, tab, k, b) && CodeAt(j, k, len, huff)
    requires b.first < |Order(j.lens)| && Current(j, k, b)
    requires b.drop < len && Replicated(tab, tab', b.next, b.curr, len - b.drop, High(huff, b.drop),
                                        Leaf(j.kind, Order(j.lens)[k], len - b.drop))
    ensures Holds(j, tab', k + 1, b)
  {
    hide Sorted, Kraft, Rev, Low, Pow2, Entered, Links, CodeOf, Paid, Sized, Replicated, Start, Leaf;
    var s := Order(j.lens)[k];
    if b.drop == 0 {
      EnterRoot(j, tab, tab', k, s);
      Sizes(tab, tab', b.next, b.curr, len - b.drop, High(huff, b.drop), Leaf(j.kind, s, len - b.drop));
    } else {
      CurrentFits(j, tab, k, b, len, huff);
      EnterSub(j, tab, tab', k, s, huff, b.low, High(huff, j.root), b.next, b.curr);
      SubBlock(j, k, s, huff, b.low, 0);
      Sizes(tab, tab', b.next, b.curr, len - b.drop, High(huff, b.drop), Leaf(j.kind, s, len - b.drop));
    }
  }

  lemma Sizes(tab: seq<Entry>, tab': seq<Entry>, next: nat, curr: nat, w: nat, h: nat, e: Entry)
    requires Replicated(tab, tab', next, curr, w, h, e)
    ensures |tab'| == |tab|
  {
  }

  /** A code that leaves the current table starts a fresh block. */
  lemma LeavesBlock(j: Job, tab: seq<Entry>, k: nat, b: Sub, len: nat, huff: nat)
    requires Holds(j, tab, k, b) && CodeAt(j, k, len, huff)
    requires len > j.root && Low(huff, j.root) != b.low
    ensures Rev(MAXBITS, Low(huff, j.root)) == Start(j.lens, k)
    ensures b.drop > 0 ==> Start(j.lens, k) >= Start(j.lens, b.first) + Pow2(MAXBITS - j.root)
  {
    hide Sorted, Kraft, Rev, Low, Pow2, Entered, Links, CodeOf, Paid, Sized, Start, Shl;
    HuffStart(j.lens, k, Order(j.lens)[k], huff);
    if b.drop == 0 {
      var m := StartAligned(j.lens, j.root, k);
      BlockAligned(j.root, m, huff, Low(huff, j.root));
    } else {
      StartMono(j.lens, b.first, k);
      NextBlock(j, k, huff, b.low, Low(huff, j.root));
    }
  }

  /** Opening a sub-table for the block that starts at position k. */
  lemma HoldsOpened(j: Job, tab: seq<Entry>, tab': seq<Entry>, k: nat, b: Sub, b': Sub, len: nat, huff: nat)
    requires Holds(j, tab, k, b) && CodeAt(j, k, len, huff)
    requires len > j.root && Low(huff, j.root) != b.low
    requires j.root + b'.curr <= MAXBITS && Sized(j, k, b'.curr)
    requires b' == Sub(j.root, Low(huff, j.root), b.used, b'.curr, b.used + Pow2(b'.curr), k)
    requires b'.used <= |tab| && tab' == tab[b'.low := Entry(b'.curr, j.root, b'.next)]
    ensures Holds(j, tab', k, b') && Current(j, k, b')
  {
    hide Sorted, Kraft, Rev, Low, Entered, Links, CodeOf, Start, Pow2, Paid, Order, RootCodes;
    LeavesBlock(j, tab, k, b, len, huff);
    Linked(j, tab, tab', k, b.low, b.next, b.curr, b'.low, b'.next, b'.curr);
    if b.drop == 0 {
      FirstPaid(j, k, b'.curr);
    } else {
      NextPaid(j, b.first, b.curr, b.used, k, b'.curr);
      Pow2Positive(b.curr);
    }
  }

  /** The space a new sub-table needs is there. */
  lemma OpenRoom(j: Job, tab: seq<Entry>, k: nat, b: Sub, len: nat, huff: nat, curr: nat)
    requires Holds(j, tab, k, b) && CodeAt(j, k, len, huff)
    requires len > j.root && Low(huff, j.root) != b.low
    requires j.root + curr <= MAXBITS && Sized(j, k, curr)
    ensures b.used + Pow2(curr) <= Room(j.root, j.max, |Order(j.lens)|)
  {
    hide Sorted, Kraft, Rev, Low, Entered, Links, CodeOf, Start, Sized, Paid, Room, Pow2, Order, LinkOk;
    LeavesBlock(j, tab, k, b, len, huff);
    if b.drop == 0 {
      FirstPaid(j, k, curr);
    } else {
      NextPaid(j, b.first, b.curr, b.used, k, curr);
    }
    PaidRoom(j, k, curr, b.used + Pow2(curr));
  }

  // ------------------------------------------------------------- finished tables

  /** With all codes of a complete set entered, the used part of the table decodes every word. */
  lemma CompleteTable(j: Job, tab: seq<Entry>, b: Sub)
    requires Holds(j, tab, |Order(j.lens)|, b) && Complete(j.lens)
    ensures TableOk(j.kind, j.lens, tab[..b.used], j.root)
  {
    hide Kraft, Rev, Low, CodeOf, Start, Paid, Sized, High, Finds, WordOk, Links, Entered;
    if b.drop == 0 {
      assert Pow2(j.root) <= b.used;
    }
    forall x: nat | x < Pow2(MAXBITS)
      ensures WordOk(j.kind, j.lens, tab[..b.used], j.root, x)
    {
      CompleteWord(j, tab, b, x);
    }
  }

  lemma CompleteWord(j: Job, tab: seq<Entry>, b: Sub, x: nat)
    requires Holds(j, tab, |Order(j.lens)|, b) && Complete(j.lens) && Pow2(j.root) <= b.used && x < Pow2(MAXBITS)
    ensures WordOk(j.kind, j.lens, tab[..b.used], j.root, x)
  {
    hide Kraft, Rev, Low, High, CodeOf, Start, Order, Paid, Sized, Finds, RootCodes, NoneAfter, EntryOk, LinkOk, Pow2;
    var i := RootOf(j.root, x);
    Covered(j, x, i);
    assert EntryOk(j.kind, j.lens, tab, j.root, x);
    assert LinkOk(j, tab, b.low, b.next, b.curr, i);
    LinkEnds(j, tab, b.low, b.next, b.curr, i);
    EntryCut(j, tab, b.used, x, i);
  }

  /** Every word lies below the end of the last code. */
  lemma Covered(j: Job, x: nat, i: nat)
    requires ValidJob(j) && Complete(j.lens) && x < Pow2(MAXBITS) && Rev(MAXBITS, i) <= Rev(MAXBITS, x)
    ensures Rev(MAXBITS, i) <= Rev(MAXBITS, x) < Start(j.lens, |Order(j.lens)|)
  {
    hide Low, High;
    StartKraft(j.lens, MAXBITS);
  }

  lemma LinkEnds(j: Job, tab: seq<Entry>, low: int, next: nat, curr: nat, i: nat)
    requires i < |tab| && LinkOk(j, tab, low, next, curr, i)
    ensures IsLink(tab[i]) ==> tab[i].val + Pow2(tab[i].op) <= next + Pow2(curr)
  {
  }

  /** A table cut behind the sub-table that a word leads to. */
  lemma EntryCut(j: Job, tab: seq<Entry>, n: nat, x: nat, i: nat)
    requires Pow2(j.root) <= n <= |tab| && i == Low(x, j.root) < Pow2(j.root)
    requires EntryOk(j.kind, j.lens, tab, j.root, x) && (IsLink(tab[i]) ==> tab[i].val + Pow2(tab[i].op) <= n)
    ensures EntryOk(j.kind, j.lens, tab[..n], j.root, x)
  {
    hide Finds, Pow2, Low, High;
    assert tab[..n][i] == tab[i];
    if IsLink(tab[i]) {
      var y := tab[i].val + Low(High(x, j.root), tab[i].op);
      assert y < n && tab[..n][y] == tab[y];
    }
  }

  /** A lone code of one bit: the other bit is marked invalid. */
  lemma LoneTable(j: Job, tab: seq<Entry>, tab': seq<Entry>, b: Sub)
    requires Holds(j, tab, 1, b) && |Order(j.lens)| == 1 && j.lens[Order(j.lens)[0]] == 1
    requires j.root == 1 && b.drop == 0 && |tab| >= 2 && tab' == tab[1 := INVALID]
    ensures TableOk(j.kind, j.lens, tab'[..b.used], j.root)
  {
    hide Sorted, Kraft, NextCode;
    assert Pow2(1) == 2;
    forall x: nat | x < Pow2(MAXBITS)
      ensures WordOk(j.kind, j.lens, tab'[..b.used], j.root, x)
    {
      LoneWord(j, tab, tab', b, Order(j.lens)[0], x);
    }
  }

  lemma LoneWord(j: Job, tab: seq<Entry>, tab': seq<Entry>, b: Sub, s: nat, x: nat)
    requires Holds(j, tab, 1, b) && |Order(j.lens)| == 1 && s == Order(j.lens)[0] && j.lens[s] == 1
    requires j.root == 1 && b.drop == 0 && |tab| >= 2 && tab' == tab[1 := INVALID] && x < Pow2(MAXBITS)
    ensures WordOk(j.kind, j.lens, tab'[..b.used], j.root, x)
  {
    hide Sorted, Kraft, NextCode, Rev, CodeOf;
    assert Pow2(1) == 2;
    PrefixesInterval(j.lens, 0, x);
    LoneCode(j.lens, s, x);
    if Rev(MAXBITS, x) < Start(j.lens, 1) {
      var i := RootOf(1, x);
      assert EntryOk(j.kind, j.lens, tab, 1, x);
      assert LinkOk(j, tab, -1, 0, 1, i);
    } else {
      LoneAfter(j.lens, s);
    }
  }

  lemma LoneAfter(lens: seq<nat>, s: nat)
    requires ValidLengths(lens) && |Order(lens)| == 1 && s == Order(lens)[0] && lens[s] == 1
    ensures NoneAfter(lens, 1)
  {
    hide Sorted, Rev, CodeOf;
    forall t: nat, y: nat | Low(y, 1) == 1
      ensures !Prefixes(lens, t, y)
    {
      if t < |lens| && lens[t] > 0 {
        var k := PositionOf(lens, t);
        LoneRev(lens, s);
      }
    }
  }

  lemma LoneRev(lens: seq<nat>, s: nat)
    requires |Order(lens)| == 1 && s == Order(lens)[0] && lens[s] == 1
    ensures Rev(lens[s], CodeOf(lens, s)) == 0
  {
    hide Sorted;
    OrderRank(lens, 0);
    assert CodeOf(lens, s) == 0;
    RevZero(1);
  }

  lemma LoneCode(lens: seq<nat>, s: nat, x: nat)
    requires |Order(lens)| == 1 && s == Order(lens)[0] && lens[s] == 1 && x < Pow2(MAXBITS)
    ensures Low(x, 1) == if Prefixes(lens, s, x) then 0 else 1
    ensures Start(lens, 0) == 0
  {
    hide Sorted;
    OrderRank(lens, 0);
    assert CodeOf(lens, s) == 0;
    RevZero(1);
    assert Low(x, 1) == x % 2 + 2 * Low(x / 2, 0);
  }
}
