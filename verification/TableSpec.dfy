/**
 What a decoding table means: the entries of src/cmd/INIT/ratz.c and the claim that
 looking up the next 15 bits of input in a table finds the one symbol whose canonical
 code they begin with.
 */
module TableSpec {
  import opened Bits
  import opened Huffman

  datatype Kind = CODES | LENS | DISTS

  /** op: 0 literal, 1..15 link to a sub-table of op index bits, 16 + e base with e extra
      bits, 64 invalid code, 96 end of block.  bits: code bits used up by this entry. */
  datatype Entry = Entry(op: nat, bits: nat, val: nat)

  const INVALID: Entry := Entry(64, 1, 0)

  const LBASE: seq<nat> := [
    3, 4, 5, 6, 7, 8, 9, 10, 11, 13, 15, 17, 19, 23, 27, 31,
    35, 43, 51, 59, 67, 83, 99, 115, 131, 163, 195, 227, 258, 0, 0]
  const LEXT: seq<nat> := [
    16, 16, 16, 16, 16, 16, 16, 16, 17, 17, 17, 17, 18, 18, 18, 18,
    19, 19, 19, 19, 20, 20, 20, 20, 21, 21, 21, 21, 16, 201, 196]
  const DBASE: seq<nat> := [
    1, 2, 3, 4, 5, 7, 9, 13, 17, 25, 33, 49, 65, 97, 129, 193,
    257, 385, 513, 769, 1025, 1537, 2049, 3073, 4097, 6145,
    8193, 12289, 16385, 24577, 0, 0]
  const DEXT: seq<nat> := [
    16, 16, 16, 16, 17, 17, 18, 18, 19, 19, 20, 20, 21, 21, 22, 22,
    23, 23, 24, 24, 25, 25, 26, 26, 27, 27,
    28, 28, 29, 29, 64, 64]

  /** The number of symbols the base and extra tables of each kind can serve. */
  function Limit(kind: Kind): nat {
    match kind case CODES => 19 case LENS => 288 case DISTS => 32
  }

  /** The table entry for symbol s when its code ends bits after the current index starts. */
  function Leaf(kind: Kind, s: nat, bits: nat): (e: Entry)
    requires s < Limit(kind)
  {
    match kind
    case CODES => Entry(0, bits, s)
    case LENS => if s < 256 then Entry(0, bits, s)
                 else if s > 256 then Entry(LEXT[s - 257], bits, LBASE[s - 257])
                 else Entry(96, bits, 0)
    case DISTS => Entry(DEXT[s], bits, DBASE[s])
  }

  predicate IsLink(e: Entry) {
    0 < e.op < 16
  }

  lemma LeafIsNotLink(kind: Kind, s: nat, bits: nat)
    requires s < Limit(kind)
    ensures !IsLink(Leaf(kind, s, bits))
  {
  }

  /** Entry e, reached after drop bits, is the leaf of a symbol whose code begins x. */
  ghost predicate Finds(kind: Kind, lens: seq<nat>, e: Entry, drop: nat, x: nat) {
    exists s: nat :: Prefixes(lens, s, x) && FoundBy(kind, lens, e, drop, s)
  }

  ghost predicate FoundBy(kind: Kind, lens: seq<nat>, e: Entry, drop: nat, s: nat) {
    s < |lens| && s < Limit(kind) && lens[s] > drop && e.bits == lens[s] - drop && Means(kind, e, s)
  }

  /** Entry e stands for symbol s; the two literal/length symbols that never occur in
      compressed data may carry any of the invalid markers in use. */
  ghost predicate Means(kind: Kind, e: Entry, s: nat)
    requires s < Limit(kind)
  {
    if kind == LENS && s > 285 then e.op == 64 || e.op == 196 || e.op == 201 else e == Leaf(kind, s, e.bits)
  }

  /** Looking up x takes at most one link and lands on a symbol that begins x. */
  ghost predicate EntryOk(kind: Kind, lens: seq<nat>, tab: seq<Entry>, root: nat, x: nat)
    requires Pow2(root) <= |tab|
  {
    var e := tab[Low(x, root)];
    if IsLink(e) then
      e.bits == root && root + e.op <= MAXBITS && e.val + Pow2(e.op) <= |tab|
      && Finds(kind, lens, tab[e.val + Low(High(x, root), e.op)], root, x)
    else
      Finds(kind, lens, e, 0, x)
  }

  /** No code starts with this bit. */
  ghost predicate NoneAfter(lens: seq<nat>, bit: nat) {
    forall s: nat, y: nat :: Low(y, 1) == bit ==> !Prefixes(lens, s, y)
  }

  /** Looking up x either finds its symbol or, if no code starts with the first bit of x,
      the invalid marker. */
  ghost predicate WordOk(kind: Kind, lens: seq<nat>, tab: seq<Entry>, root: nat, x: nat)
    requires Pow2(root) <= |tab|
  {
    EntryOk(kind, lens, tab, root, x)
    || (tab[Low(x, root)] == INVALID && NoneAfter(lens, Low(x, 1)))
  }

  /** The table decodes exactly the canonical code of lens. */
  ghost predicate TableOk(kind: Kind, lens: seq<nat>, tab: seq<Entry>, root: nat) {
    && 1 <= root <= MAXBITS
    && Pow2(root) <= |tab|
    && forall x: nat :: x < Pow2(MAXBITS) ==> WordOk(kind, lens, tab, root, x)
  }

  /** A table for a prefix-free code. */
  ghost predicate GoodTable(kind: Kind, lens: seq<nat>, tab: seq<Entry>, root: nat) {
    ValidLengths(lens) && !OverSubscribed(lens) && TableOk(kind, lens, tab, root)
  }

  /** The sets of lengths that are accepted: complete ones, a lone one-bit code outside
      the code length code, and no code at all. */
  predicate Acceptable(kind: Kind, lens: seq<nat>) {
    Empty(lens) || Complete(lens)
    || (kind != CODES && !OverSubscribed(lens) && forall i :: 0 <= i < |lens| ==> lens[i] <= 1)
  }

  // --------------------------------------------------------- space for tables

  ghost predicate Range(lens: seq<nat>, min: nat, max: nat) {
    && 1 <= min <= max <= MAXBITS
    && Count(lens, min) > 0 && Count(lens, max) > 0
    && (forall l :: 1 <= l < min ==> Count(lens, l) == 0)
    && (forall l :: max < l <= MAXBITS ==> Count(lens, l) == 0)
  }

  /** The root index width actually used for a requested one. */
  function Root(request: nat, min: nat, max: nat): nat {
    var r := if request > max then max else request;
    if r < min then min else r
  }

  /** Entries that always suffice: the root table, one entry for each code, and one
      sub-table of each width that holds codes of several lengths. */
  function Room(root: nat, max: nat, codes: nat): (r: int)
    requires max <= MAXBITS
  {
    if max <= root then Pow2(root) else Pow2(root) + codes + Pow2(16 - root) - 4
  }
}
