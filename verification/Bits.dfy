/**
 Bit strings and the numbers they spell.

 DEFLATE packs numbers least significant bit first and Huffman codes most
 significant bit first (section 3.1.1 of RFC 1951).  The shifts and masks of the C
 code are Shl (x << n), High (x >> n) and Low (x & ((1 << n) - 1)).  They are
 defined one bit at a time, so that every proof about them is linear.
 */
module Bits {

  type byte = x: int | 0 <= x < 256

  function Shl(x: nat, n: nat): nat {
    if n == 0 then x else 2 * Shl(x, n - 1)
  }

  function Pow2(n: nat): (r: nat)
    ensures r > 0
  {
    if n == 0 then 1 else 2 * Pow2(n - 1)
  }

  /** The low n bits of x. */
  function Low(x: nat, n: nat): (r: nat)
    ensures r < Pow2(n)
  {
    if n == 0 then 0 else x % 2 + 2 * Low(x / 2, n - 1)
  }

  /** x without its low n bits. */
  function High(x: nat, n: nat): nat {
    if n == 0 then x else High(x / 2, n - 1)
  }

  /** The low n bits of x in reverse order. */
  function Rev(n: nat, x: nat): (r: nat)
    ensures r < Pow2(n)
  {
    if n == 0 then 0 else Rev(n - 1, x / 2) + if x % 2 == 0 then 0 else Pow2(n - 1)
  }

  /** The bits b[pos..pos+n] read least significant bit first. */
  function Lsb(b: seq<bool>, pos: nat, n: nat): (r: nat)
    requires pos + n <= |b|
    ensures r < Pow2(n)
    decreases n
  {
    if n == 0 then 0 else (if b[pos] then 1 else 0) + 2 * Lsb(b, pos + 1, n - 1)
  }

  /** The bits b[pos..pos+n] read most significant bit first. */
  function Msb(b: seq<bool>, pos: nat, n: nat): (r: nat)
    requires pos + n <= |b|
    ensures r < Pow2(n)
    decreases n
  {
    if n == 0 then 0 else (if b[pos] then Pow2(n - 1) else 0) + Msb(b, pos + 1, n - 1)
  }

  // -------------------------------------------------------- shifts and powers

  lemma {:induction false} ShlPlus(a: nat, b: nat, n: nat)
    ensures Shl(a + b, n) == Shl(a, n) + Shl(b, n)
  {
    if n > 0 {
      ShlPlus(a, b, n - 1);
    }
  }

  lemma {:induction false} ShlShl(x: nat, m: nat, n: nat)
    ensures Shl(x, m + n) == Shl(Shl(x, m), n)
  {
    if n > 0 {
      ShlShl(x, m, n - 1);
      assert m + n - 1 == m + (n - 1);
    }
  }

  lemma {:induction false} ShlOne(n: nat)
    ensures Shl(1, n) == Pow2(n) && Shl(0, n) == 0
  {
    if n > 0 {
      ShlOne(n - 1);
    }
  }

  lemma {:induction false} ShlPow2(m: nat, n: nat)
    ensures Shl(Pow2(m), n) == Pow2(m + n)
  {
    ShlOne(m);
    ShlOne(m + n);
    ShlShl(1, m, n);
  }

  lemma {:induction false} ShlMono(a: nat, b: nat, n: nat)
    ensures a <= b ==> Shl(a, n) <= Shl(b, n)
    ensures a < b ==> Shl(a, n) + Pow2(n) <= Shl(b, n)
  {
    if n > 0 {
      ShlMono(a, b, n - 1);
    }
  }

  lemma {:induction false} Pow2Mono(m: nat, n: nat)
    requires m <= n
    ensures Pow2(m) <= Pow2(n)
    decreases n - m
  {
    if m < n {
      Pow2Mono(m + 1, n);
    }
  }

  lemma Pow2Values()
    ensures Pow2(0) == 1 && Pow2(1) == 2 && Pow2(2) == 4 && Pow2(3) == 8 && Pow2(4) == 16
    ensures Pow2(5) == 32 && Pow2(6) == 64 && Pow2(7) == 128 && Pow2(8) == 256 && Pow2(9) == 512
    ensures Pow2(10) == 1024 && Pow2(11) == 2048 && Pow2(12) == 4096 && Pow2(13) == 8192
    ensures Pow2(14) == 16384 && Pow2(15) == 32768 && Pow2(16) == 65536
  {
    assert Pow2(2) == 4 && Pow2(4) == 16;
    assert Pow2(6) == 64 && Pow2(8) == 256;
    assert Pow2(10) == 1024 && Pow2(12) == 4096;
    assert Pow2(14) == 16384;
  }

  // ------------------------------------------------------- taking bits apart

  lemma {:induction false} LowHigh(x: nat, n: nat)
    ensures x == Low(x, n) + Shl(High(x, n), n)
  {
    if n > 0 {
      LowHigh(x / 2, n - 1);
    }
  }

  /** Putting low bits and high bits together and taking them apart again. */
  lemma {:induction false} Join(low: nat, high: nat, n: nat)
    requires low < Pow2(n)
    ensures Low(low + Shl(high, n), n) == low
    ensures High(low + Shl(high, n), n) == high
  {
    if n > 0 {
      Join(low / 2, high, n - 1);
      var x := low + Shl(high, n);
      assert x % 2 == low % 2 && x / 2 == low / 2 + Shl(high, n - 1);
    }
  }

  lemma LowSmall(x: nat, n: nat)
    requires x < Pow2(n)
    ensures Low(x, n) == x && High(x, n) == 0
  {
    ShlOne(n);
    Join(x, 0, n);
  }

  lemma {:induction false} LowLow(x: nat, m: nat, n: nat)
    requires m <= n
    ensures Low(Low(x, n), m) == Low(x, m)
    decreases m
  {
    if m > 0 {
      LowLow(x / 2, m - 1, n - 1);
      var y := Low(x, n);
      assert y % 2 == x % 2 && y / 2 == Low(x / 2, n - 1);
    }
  }

  lemma {:induction false} HighLow(x: nat, m: nat, n: nat)
    ensures High(Low(x, m + n), m) == Low(High(x, m), n)
    ensures Low(x, m + n) == Low(x, m) + Shl(Low(High(x, m), n), m)
    decreases m
  {
    hide Pow2;
    if m > 0 {
      HighLow(x / 2, m - 1, n);
      var y, z := Low(x, m + n), Low(x / 2, m - 1 + n);
      assert m + n - 1 == m - 1 + n && y == x % 2 + 2 * z;
    }
  }

  /** The names agree with the operators: masks are remainders, shifts are quotients. */
  lemma {:induction false} MaskAndShift(x: nat, n: nat)
    ensures x == Low(x, n) + High(x, n) * Pow2(n) && Shl(x, n) == x * Pow2(n)
    decreases n
  {
    if n > 0 {
      MaskAndShift(x / 2, n - 1);
      MaskAndShift(x, n - 1);
      Doubled(High(x, n), Pow2(n - 1));
      Doubled(x, Pow2(n - 1));
    }
  }

  lemma Doubled(a: nat, p: nat)
    ensures a * (2 * p) == 2 * (a * p)
  {
  }

  // ---------------------------------------------------------------- reversal

  lemma {:induction false} RevSplit(m: nat, n: nat, x: nat)
    ensures Rev(m + n, x) == Shl(Rev(m, x), n) + Rev(n, High(x, m))
    decreases m
  {
    hide Shl, Pow2, Low;
    ShlOne(n);
    if m > 0 {
      RevSplit(m - 1, n, x / 2);
      var low := Rev(m - 1, x / 2);
      assert m + n - 1 == m - 1 + n;
      ShlPow2(m - 1, n);
      ShlPlus(low, Pow2(m - 1), n);
    }
  }

  lemma {:induction false} RevLow(n: nat, x: nat)
    ensures Rev(n, Low(x, n)) == Rev(n, x)
  {
    if n > 0 {
      var y := Low(x, n);
      assert y % 2 == x % 2 && y / 2 == Low(x / 2, n - 1);
      RevLow(n - 1, x / 2);
    }
  }

  lemma {:induction false} RevZero(n: nat)
    ensures Rev(n, 0) == 0
  {
    if n > 0 {
      RevZero(n - 1);
    }
  }

  lemma RevTop(n: nat, low: nat, top: nat)
    requires low < Pow2(n) && top < 2
    ensures Rev(n + 1, low + Shl(top, n)) == 2 * Rev(n, low) + top
  {
    var y := low + Shl(top, n);
    Join(low, top, n);
    RevLow(n, y);
    RevSplit(n, 1, y);
    assert Shl(Rev(n, y), 1) == 2 * Shl(Rev(n, y), 0);
  }

  lemma {:induction false} RevRev(n: nat, x: nat)
    requires x < Pow2(n)
    ensures Rev(n, Rev(n, x)) == x
    decreases n
  {
    hide Shl, Low;
    if n > 0 {
      // Rev(n, x) has the reversal of x / 2 below and the low bit of x on top
      var low, top := Rev(n - 1, x / 2), x % 2;
      ShlOne(n - 1);
      RevTop(n - 1, low, top);
      RevRev(n - 1, x / 2);
    }
  }

  lemma RevIff(n: nat, x: nat, y: nat)
    requires x < Pow2(n) && y < Pow2(n)
    ensures Rev(n, x) == Rev(n, y) <==> x == y
  {
    RevRev(n, x);
    RevRev(n, y);
  }

  /** Left-aligning a code by m zero bits does not change its reversal. */
  lemma RevShifted(m: nat, n: nat, c: nat)
    ensures Rev(m + n, Shl(c, m)) == Rev(n, c)
  {
    RevSplit(m, n, Shl(c, m));
    Join(0, c, m);
    RevLow(m, Shl(c, m));
    RevZero(m);
    ShlOne(n);
  }

  /**
   The words x whose low n bits are h are exactly those whose reversal lies in the
   interval of 2^m numbers that starts at the left-aligned reversal of h.
   */
  lemma PrefixInterval(m: nat, n: nat, h: nat, x: nat)
    requires h < Pow2(n)
    ensures Low(x, n) == h <==>
            Shl(Rev(n, h), m) <= Rev(n + m, x) < Shl(Rev(n, h), m) + Pow2(m)
  {
    RevSplit(n, m, x);
    RevLow(n, x);
    RevIff(n, Low(x, n), h);
    ShlMono(Rev(n, x), Rev(n, h), m);
    ShlMono(Rev(n, h), Rev(n, x), m);
  }

  // ------------------------------------------------------- numbers from bits

  lemma {:induction false} LsbSplit(b: seq<bool>, pos: nat, m: nat, n: nat)
    requires pos + m + n <= |b|
    ensures Lsb(b, pos, m + n) == Lsb(b, pos, m) + Shl(Lsb(b, pos + m, n), m)
    decreases m
  {
    if m > 0 {
      LsbSplit(b, pos + 1, m - 1, n);
      assert m + n - 1 == m - 1 + n;
    }
  }

  /** Taking m bits off the accumulator: masking and shifting. */
  lemma LsbTake(b: seq<bool>, pos: nat, m: nat, n: nat)
    requires pos + m + n <= |b|
    ensures Low(Lsb(b, pos, m + n), m) == Lsb(b, pos, m)
    ensures High(Lsb(b, pos, m + n), m) == Lsb(b, pos + m, n)
  {
    LsbSplit(b, pos, m, n);
    Join(Lsb(b, pos, m), Lsb(b, pos + m, n), m);
  }

  lemma {:induction false} RevLsb(b: seq<bool>, pos: nat, n: nat)
    requires pos + n <= |b|
    ensures Rev(n, Lsb(b, pos, n)) == Msb(b, pos, n)
    decreases n
  {
    if n > 0 {
      RevLsb(b, pos + 1, n - 1);
      var x, t := Lsb(b, pos, n), Lsb(b, pos + 1, n - 1);
      assert x / 2 == t && x % 2 == if b[pos] then 1 else 0;
    }
  }

  // ------------------------------------------------------------ bytes to bits

  /** The bit string of a byte stream: each byte contributes its bits from the lowest up. */
  function StreamBits(s: seq<byte>): (b: seq<bool>)
    ensures |b| == 8 * |s|
  {
    seq(8 * |s|, i requires 0 <= i < 8 * |s| => BitOf(s[i / 8], i % 8))
  }

  predicate BitOf(x: nat, i: nat) {
    High(x, i) % 2 == 1
  }

  lemma {:induction false} LsbOfNumber(b: seq<bool>, pos: nat, n: nat, x: nat)
    requires pos + n <= |b| && x < Pow2(n)
    requires forall i :: pos <= i < pos + n ==> b[i] == BitOf(x, i - pos)
    ensures Lsb(b, pos, n) == x
    decreases n
  {
    if n > 0 {
      forall i | pos + 1 <= i < pos + n
        ensures b[i] == BitOf(x / 2, i - (pos + 1))
      {
        assert b[i] == BitOf(x, i - pos);
      }
      LsbOfNumber(b, pos + 1, n - 1, x / 2);
      assert b[pos] == BitOf(x, 0);
    }
  }

  /** The eight bits of byte i spell that byte. */
  lemma StreamByte(s: seq<byte>, i: nat)
    requires i < |s|
    ensures Lsb(StreamBits(s), 8 * i, 8) == s[i]
  {
    var b, p := StreamBits(s), 8 * i;
    Pow2Values();
    forall j | p <= j < p + 8
      ensures b[j] == BitOf(s[i], j - p)
    {
      assert j / 8 == i && j % 8 == j - p;
    }
    LsbOfNumber(b, p, 8, s[i]);
  }
}
