/**
 Dynamic block headers as they are written are what the decoder reads, and every header that it reads is written
 so (RFC 1951, section 3.2.7).
 */
module EncodeHeaders {
  import opened Bits
  import opened Huffman
  import opened TableSpec
  import opened Deflate
  import opened Resume
  import opened EncodeSyms
  import E = Encode

  lemma {:induction false} CopiesIs(v: nat, n: nat)
    ensures E.Copies(v, n) == Repeat(v, n)
  {
    if n > 0 {
      CopiesIs(v, n - 1);
      assert Repeat(v, n) == Repeat(v, n - 1) + [v];
    }
  }

  /** The symbol and the extra bits of an item. */
  function SymOf(item: E.Item): nat {
    match item
    case Len(n) => n
    case Again(_) => 16
    case Zeros(_) => 17
    case ManyZeros(_) => 18
  }

  lemma ItemWord(cl: seq<nat>, got: seq<nat>, item: E.Item)
    requires E.ItemOk(cl, got, item)
    ensures E.Coded(cl, SymOf(item))
    ensures item.Len? ==>
      E.ItemBits(cl, item) == E.SymBits(cl, item.n) && item.n < 16 && E.ItemLengths(got, item) == [item.n]
    ensures !item.Len? ==>
      && (SymOf(item) == 16 ==> got != []) && SymOf(item) >= 16 && item.n >= RepeatBase(SymOf(item))
      && item.n - RepeatBase(SymOf(item)) < Pow2(RepeatExtra(SymOf(item)))
      && E.ItemBits(cl, item) == E.SymBits(cl, SymOf(item)) +
           E.Num(item.n - RepeatBase(SymOf(item)), RepeatExtra(SymOf(item)))
      && E.ItemLengths(got, item) == Repeat(if SymOf(item) == 16 then got[|got| - 1] else 0, item.n)
    ensures |E.ItemLengths(got, item)| == (if item.Len? then 1 else item.n) > 0
  {
    Pow2Values();
    if item.Again? {
      CopiesIs(got[|got| - 1], item.n);
    } else if !item.Len? {
      CopiesIs(0, item.n);
    }
  }

  /** An item is read. */
  lemma ItemPlays(b: seq<bool>, pos: nat, h: Header, cl: seq<nat>, got: seq<nat>, item: E.Item, out: seq<byte>)
    requires EncodeSyms.Sound(cl) && E.ItemOk(cl, got, item) && At(b, pos, E.ItemBits(cl, item))
    requires |got + E.ItemLengths(got, item)| <= h.nlen + h.ndist
    ensures var p := pos + |E.ItemBits(cl, item)|;
      && p <= |b|
      && Lengths(b, pos, h, cl, got, out) == Lengths(b, p, h, cl, got + E.ItemLengths(got, item), out)
  {
    hide Lengths, Repeats, DecodeSym, E.SymBits, E.ItemOk, E.ItemBits, E.ItemLengths, ValidLengths, OverSubscribed, Lsb,
      At, RepeatBase, RepeatExtra, Pow2, E.Num, Repeat;
    ItemWord(cl, got, item);
    var s := SymOf(item);
    SymAt(cl, s, b, pos);
    if item.Len? {
      LengthsStep(b, pos, h, cl, got, out);
    } else {
      var w, x, n := E.SymBits(cl, s), item.n - RepeatBase(s), RepeatExtra(s);
      AtJoin(b, pos, w, E.Num(x, n));
      LengthsStep(b, pos, h, cl, got, out);
      NumAt(b, pos + |w|, x, n);
      RepeatStep(b, pos + |w|, h, cl, got, s, out);
    }
  }

  /** Items are read up to the last. */
  lemma {:induction false} ItemsPlay(b: seq<bool>, pos: nat, h: Header, cl: seq<nat>, got: seq<nat>,
                                     items: seq<E.Item>, out: seq<byte>)
    requires EncodeSyms.Sound(cl) && E.ItemsOk(cl, got, items) && At(b, pos, E.ItemsBits(cl, items))
    requires |E.Unfold(got, items)| <= h.nlen + h.ndist
    ensures var p := pos + |E.ItemsBits(cl, items)|;
      && p <= |b|
      && Lengths(b, pos, h, cl, got, out) == Lengths(b, p, h, cl, E.Unfold(got, items), out)
    decreases |items|
  {
    hide Lengths, E.ItemOk, E.ItemBits, E.ItemLengths, EncodeSyms.Sound;
    if items != [] {
      var w, more := E.ItemBits(cl, items[0]), got + E.ItemLengths(got, items[0]);
      AtJoin(b, pos, w, E.ItemsBits(cl, items[1..]));
      ItemPlays(b, pos, h, cl, got, items[0], out);
      ItemsPlay(b, pos + |w|, h, cl, more, items[1..], out);
    }
  }

  // What is read is written.

  /** Without codes every bit is read as the length 0. */
  lemma EmptyReads(b: seq<bool>, pos: nat, h: Header, cl: seq<nat>, got: seq<nat>, out: seq<byte>)
    requires pos <= |b| && Empty(cl) && |got| < h.nlen + h.ndist
    ensures Lengths(b, pos, h, cl, got, out) ==
      if pos < |b| then Lengths(b, pos + 1, h, cl, got + [0], out) else Short(out)
  {
    hide Symbols, Repeats, Acceptable, Lengths, DecodeSym;
    LengthsStep(b, pos, h, cl, got, out);
  }

  /** Without codes nothing is read to the end of the stream. */
  lemma {:induction false} EmptyFails(b: seq<bool>, pos: nat, h: Header, cl: seq<nat>, got: seq<nat>, out: seq<byte>)
    requires pos <= |b| && Empty(cl) && Empty(got) && |got| <= h.nlen + h.ndist
    ensures !Lengths(b, pos, h, cl, got, out).Done?
    decreases |b| - pos
  {
    hide Symbols, Blocks, Repeats, Acceptable, Lengths;
    if |got| == h.nlen + h.ndist {
      LengthsEnd(b, pos, h, cl, got, out);
      SymbolStep(b, pos, Codes(h.last, got[..h.nlen], got[h.nlen..]), out);
      assert forall s: nat :: !CodeHere(got[..h.nlen], s, b, pos);
    } else {
      EmptyReads(b, pos, h, cl, got, out);
      if pos < |b| {
        EmptyFails(b, pos + 1, h, cl, got + [0], out);
      }
    }
  }

  /** An item that the decoder reads to the end of the stream. */
  lemma ItemRead(b: seq<bool>, pos: nat, h: Header, cl: seq<nat>, got: seq<nat>, out: seq<byte>)
    returns (item: E.Item)
    requires EncodeSyms.Sound(cl) && |cl| == 19 && !Empty(cl) && pos <= |b| && |got| < h.nlen + h.ndist
    requires Lengths(b, pos, h, cl, got, out).Done?
    ensures E.ItemOk(cl, got, item) && At(b, pos, E.ItemBits(cl, item)) && |E.ItemBits(cl, item)| > 0
    ensures |got + E.ItemLengths(got, item)| <= h.nlen + h.ndist
  {
    hide Lengths, Repeats, DecodeSym, E.SymBits, ValidLengths, OverSubscribed, At, Pow2, E.Num, Repeat, Lsb;
    LengthsStep(b, pos, h, cl, got, out);
    var r := DecodeSym(cl, b, pos);
    SymBack(cl, b, pos);
    SymAt(cl, r.s, b, pos);
    Pow2Values();
    if r.s < 16 {
      item := E.Len(r.s);
    } else {
      var p, n := pos + r.n, RepeatExtra(r.s);
      RepeatStep(b, p, h, cl, got, r.s, out);
      var x := Lsb(b, p, n);
      NumAt(b, p, x, n);
      AtJoin(b, pos, E.SymBits(cl, r.s), E.Num(x, n));
      item := if r.s == 16 then E.Again(3 + x) else if r.s == 17 then E.Zeros(3 + x) else E.ManyZeros(11 + x);
    }
  }

  /** The items that the decoder reads to the end of the stream. */
  lemma {:induction false} ItemsRead(b: seq<bool>, pos: nat, h: Header, cl: seq<nat>, got: seq<nat>, out: seq<byte>)
    returns (items: seq<E.Item>)
    requires EncodeSyms.Sound(cl) && |cl| == 19 && !Empty(cl) && pos <= |b| && |got| <= h.nlen + h.ndist
    requires Lengths(b, pos, h, cl, got, out).Done?
    ensures E.ItemsOk(cl, got, items) && At(b, pos, E.ItemsBits(cl, items))
    ensures |E.Unfold(got, items)| == h.nlen + h.ndist
    decreases |b| - pos
  {
    hide Lengths, E.ItemOk, E.ItemBits, E.ItemLengths, EncodeSyms.Sound, Empty, At;
    if |got| == h.nlen + h.ndist {
      items := [];
      AtNone(b, pos);
    } else {
      var item := ItemRead(b, pos, h, cl, got, out);
      var w, more := E.ItemBits(cl, item), got + E.ItemLengths(got, item);
      ItemPlays(b, pos, h, cl, got, item, out);
      var rest := ItemsRead(b, pos + |w|, h, cl, more, out);
      items := [item] + rest;
      assert items[1..] == rest;
      AtJoin(b, pos, w, E.ItemsBits(cl, rest));
    }
  }

  lemma {:induction false} UnfoldValid(cl: seq<nat>, got: seq<nat>, items: seq<E.Item>)
    requires E.ItemsOk(cl, got, items) && ValidLengths(got)
    ensures ValidLengths(E.Unfold(got, items))
    decreases |items|
  {
    if items != [] {
      var more := E.ItemLengths(got, items[0]);
      ItemWord(cl, got, items[0]);
      assert ValidLengths(got + more);
      UnfoldValid(cl, got + more, items[1..]);
    }
  }

  // The code length code.

  /** The first n lengths in the order in which they are sent. */
  function Sent(cl: seq<nat>, n: nat): (r: seq<nat>)
    requires |cl| == 19 && n <= 19
    ensures |r| == n
  {
    seq(n, i requires 0 <= i < n => cl[E.SENT[i]])
  }

  /** PLACE undoes the order in which they are sent. */
  lemma PlaceOf(i: nat)
    requires i < 19
    ensures PLACE[i] < 19 && E.SENT[PLACE[i]] == i && E.SENT[i] < 19 && PLACE[E.SENT[i]] == i
  {
  }

  lemma SentRange()
    ensures |E.SENT| == 19 && forall k :: 0 <= k < 19 ==> E.SENT[k] < 19
  {
  }

  lemma SentIs(cl: seq<nat>, n: nat)
    requires |cl| == 19 && n <= 19 && forall k :: n <= k < 19 ==> cl[E.SENT[k]] == 0
    ensures LengthCode(Sent(cl, n)) == cl
  {
    var acc := Sent(cl, n);
    forall i: nat | i < 19 ensures LengthCode(acc)[i] == cl[i] {
      PlaceOf(i);
    }
  }

  lemma SentBack(acc: seq<nat>)
    requires |acc| <= 19
    ensures Sent(LengthCode(acc), |acc|) == acc
    ensures forall k: nat :: |acc| <= k < 19 ==> LengthCode(acc)[E.SENT[k]] == 0
  {
    forall k: nat | k < 19 ensures LengthCode(acc)[E.SENT[k]] == if k < |acc| then acc[k] else 0 {
      PlaceOf(k);
    }
  }

  /** The lengths of the code length code are read. */
  lemma {:induction false} SentPlays(b: seq<bool>, pos: nat, h: Header, cl: seq<nat>, n: nat, out: seq<byte>)
    requires |cl| == 19 && n <= h.ncode <= 19 && (forall i :: 0 <= i < 19 ==> cl[i] <= 7)
    requires At(b, pos, E.SentBits(cl, n))
    ensures pos + 3 * n <= |b|
    ensures CodeLengthCode(b, pos, h, [], out) == CodeLengthCode(b, pos + 3 * n, h, Sent(cl, n), out)
  {
    hide CodeLengthCode, E.Num, Lsb, At, E.SENT, PLACE, Pow2, Lengths;
    SentRange();
    if n == 0 {
      assert Sent(cl, 0) == [];
      assert pos <= |b| by { SentFits(b, pos, cl, n); }
    } else {
      PlaceOf(n - 1);
      Pow2Values();
      AtJoin(b, pos, E.SentBits(cl, n - 1), E.Num(cl[E.SENT[n - 1]], 3));
      SentPlays(b, pos, h, cl, n - 1, out);
      var p := pos + 3 * (n - 1);
      NumAt(b, p, cl[E.SENT[n - 1]], 3);
      CodeLengthStep(b, p, h, Sent(cl, n - 1), out);
      assert Sent(cl, n) == Sent(cl, n - 1) + [cl[E.SENT[n - 1]]];
    }
  }

  lemma SentFits(b: seq<bool>, pos: nat, cl: seq<nat>, n: nat)
    requires |cl| == 19 && n <= 19 && At(b, pos, E.SentBits(cl, n))
    ensures pos <= |b|
  {
  }

  /** The lengths of the code length code that the decoder reads to the end of the stream, behind n of them. */
  lemma {:induction false} SentRead(b: seq<bool>, pos: nat, h: Header, acc: seq<nat>, out: seq<byte>)
    returns (full: seq<nat>)
    requires pos + 3 * |acc| <= |b| && |acc| <= h.ncode <= 19 && (forall i :: 0 <= i < |acc| ==> acc[i] <= 7)
    requires CodeLengthCode(b, pos + 3 * |acc|, h, acc, out).Done?
    requires At(b, pos, E.SentBits(LengthCode(acc), |acc|))
    ensures |full| == h.ncode && (forall i :: 0 <= i < |full| ==> full[i] <= 7)
    ensures At(b, pos, E.SentBits(LengthCode(full), |full|)) && pos + 3 * |full| <= |b|
    ensures CodeLengthCode(b, pos + 3 * |full|, h, full, out).Done?
    decreases h.ncode - |acc|
  {
    hide CodeLengthCode, E.Num, Lsb, At, LengthCode, E.SENT, PLACE, Pow2, Lengths, E.SentBits;
    if |acc| == h.ncode {
      full := acc;
    } else {
      var p := pos + 3 * |acc|;
      CodeLengthStep(b, p, h, acc, out);
      Pow2Values();
      var x := Lsb(b, p, 3);
      NumAt(b, p, x, 3);
      SentOneMore(acc, x);
      AtJoin(b, pos, E.SentBits(LengthCode(acc), |acc|), E.Num(x, 3));
      full := SentRead(b, pos, h, acc + [x], out);
    }
  }

  lemma SentOneMore(acc: seq<nat>, x: nat)
    requires |acc| < 19
    ensures E.SentBits(LengthCode(acc + [x]), |acc| + 1) == E.SentBits(LengthCode(acc), |acc|) + E.Num(x, 3)
  {
    hide E.Num;
    PlaceOf(|acc|);
    SameSent(acc, acc + [x], |acc|);
  }

  lemma {:induction false} SameSent(acc: seq<nat>, more: seq<nat>, n: nat)
    requires acc <= more && n <= |acc| && |more| <= 19
    ensures E.SentBits(LengthCode(acc), n) == E.SentBits(LengthCode(more), n)
  {
    hide E.Num;
    if n > 0 {
      SameSent(acc, more, n - 1);
      PlaceOf(n - 1);
    }
  }
}
