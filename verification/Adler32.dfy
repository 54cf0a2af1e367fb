/**
 The Adler-32 checksum (section 8.2 of RFC 1950) and adler32, which puts off its modulo
 operations for as long as 32 bits allow (src/cmd/INIT/ratz.c:1115-1229).
 */
module Adler32 {
  import opened Bits

  const BASE: nat := 65521
  const NMAX: nat := 5552
  const WORD: nat := 0x1_0000_0000

  /** The two component sums. */
  datatype Sums = Sums(a: nat, b: nat)

  function Unpack(adler: nat): (x: Sums)
    ensures x.a < 65536 && x.b < 65536
  {
    Sums(adler % 65536, adler / 65536 % 65536)
  }

  function Pack(x: Sums): nat {
    x.a + 65536 * x.b
  }

  /** Both sums with one more byte, reduced. */
  function Next(p: Sums, v: byte): (r: Sums)
    ensures r.a < BASE && r.b < BASE
  {
    var a := (p.a + v) % BASE;
    Sums(a, (p.b + a) % BASE)
  }

  /** The definition: both sums are reduced after every byte. */
  function Fold(x: Sums, s: seq<byte>): (r: Sums)
    ensures s != [] ==> r.a < BASE && r.b < BASE
  {
    if s == [] then x else Next(Fold(x, s[..|s| - 1]), s[|s| - 1])
  }

  lemma FoldMore(x: Sums, s: seq<byte>, v: byte)
    ensures Fold(x, s + [v]) == Next(Fold(x, s), v)
  {
    assert (s + [v])[..|s|] == s;
  }

  function Checksum(adler: nat, s: seq<byte>): nat {
    Pack(Fold(Unpack(adler), s))
  }

  lemma {:induction false} FoldSplit(x: Sums, s: seq<byte>, t: seq<byte>)
    ensures Fold(Fold(x, s), t) == Fold(x, s + t)
    decreases |t|
  {
    if t == [] {
      assert s + t == s;
    } else {
      FoldSplit(x, s, t[..|t| - 1]);
      assert (s + t)[..|s + t| - 1] == s + t[..|t| - 1];
    }
  }

  lemma {:induction false} Halves(a: nat, b: nat)
    requires a < 65536
    ensures (a + 65536 * b) % 65536 == a && (a + 65536 * b) / 65536 == b
  {
    if b > 0 {
      Halves(a, b - 1);
    }
  }

  lemma UnpackPack(x: Sums)
    requires x.a < 65536 && x.b < 65536
    ensures Unpack(Pack(x)) == x
  {
    Halves(x.a, x.b);
  }

  /** Checksums compose: the checksum of a part is the seed for the next part. */
  lemma Compose(adler: nat, s: seq<byte>, t: seq<byte>)
    ensures Checksum(Checksum(adler, s), t) == Checksum(adler, s + t)
  {
    var x := Unpack(adler);
    UnpackPack(Fold(x, s));
    FoldSplit(x, s, t);
  }

  // ---------------------------------------------------------- the sums in full

  function Sum(s: seq<byte>): nat {
    if s == [] then 0 else s[0] + Sum(s[1..])
  }

  /** Every byte as often as there are bytes from it on. */
  function Weighted(s: seq<byte>): nat {
    if s == [] then 0 else |s| * s[0] + Weighted(s[1..])
  }

  lemma {:induction false} SumMore(s: seq<byte>, v: byte)
    ensures Sum(s + [v]) == Sum(s) + v && Weighted(s + [v]) == Weighted(s) + Sum(s) + v
  {
    if s == [] {
      assert s + [v] == [v] && [v][1..] == [];
    } else {
      SumMore(s[1..], v);
      assert (s + [v])[1..] == s[1..] + [v];
      OnceMore(|s|, s[0]);
    }
  }

  lemma OnceMore(n: nat, v: nat)
    ensures (n + 1) * v == n * v + v
  {
  }

  lemma ModPlus(x: nat, y: nat)
    ensures (x % 65521 + y) % 65521 == (x + y) % 65521
    ensures (x % 65521 + y % 65521) % 65521 == (x + y) % 65521
  {
  }

  /** Section 8.2 of RFC 1950: the checksum of all data from the start, by sums that are reduced but once. */
  lemma {:induction false} InFull(s: seq<byte>)
    ensures Fold(Sums(1, 0), s) == Sums((1 + Sum(s)) % 65521, (|s| + Weighted(s)) % 65521)
    ensures Checksum(1, s) == (1 + Sum(s)) % 65521 + 65536 * ((|s| + Weighted(s)) % 65521)
  {
    hide Sum, Weighted;
    if s == [] {
      NoSums();
    } else {
      var n := |s| - 1;
      var t, v := s[..n], s[n];
      InFull(t);
      assert t + [v] == s;
      SumMore(t, v);
      FoldMore(Sums(1, 0), t, v);
      ModPlus(1 + Sum(t), v);
      ModPlus(n + Weighted(t), 1 + Sum(s));
    }
    assert Unpack(1) == Sums(1, 0);
  }

  lemma NoSums()
    ensures Sum([]) == 0 && Weighted([]) == 0
  {
  }

  // ------------------------------------------------------------ how big sums get

  /** 1 + 2 + ... + n */
  function Tri(n: nat): nat {
    if n == 0 then 0 else Tri(n - 1) + n
  }

  lemma {:induction false} TriClosed(n: nat)
    ensures 2 * Tri(n) == n * (n + 1)
  {
    if n > 0 {
      TriClosed(n - 1);
    }
  }

  lemma {:induction false} TriMono(m: nat, n: nat)
    requires m <= n
    ensures Tri(m) <= Tri(n)
    decreases n
  {
    if m < n {
      TriMono(m, n - 1);
    }
  }

  /** The sums after n unreduced bytes on top of any two 16-bit values. */
  ghost predicate Bounded(a: nat, b: nat, n: nat) {
    a <= 65535 + 255 * n && b <= 65535 + 65535 * n + 255 * Tri(n)
  }

  /** NMAX bytes fit into 32 bits. */
  lemma NmaxFits(a: nat, b: nat, n: nat)
    requires Bounded(a, b, n) && n <= NMAX
    ensures a < WORD && b < WORD
  {
    TriMono(n, NMAX);
    TriClosed(NMAX);
  }

  /** One more byte would not be safe: NMAX is as large as it can be. */
  lemma NmaxLargest()
    ensures BASE - 1 + (BASE - 1) * (NMAX + 1) + 255 * Tri(NMAX + 1) >= WORD
  {
    TriClosed(NMAX + 1);
  }

  // ------------------------------------------------------------- the modulo forms

  lemma {:induction false} ShlMultiple(n: nat)
    ensures Shl(BASE, n) % BASE == 0
  {
    if n > 0 {
      ShlMultiple(n - 1);
      Twice(Shl(BASE, n - 1));
    }
  }

  lemma Twice(x: nat)
    requires x % BASE == 0
    ensures (2 * x) % BASE == 0
  {
    assert x == BASE * (x / BASE);
    assert 2 * x == BASE * (2 * (x / BASE));
  }

  lemma Less(a: nat, m: nat)
    requires m % BASE == 0 && m <= a
    ensures (a - m) % BASE == a % BASE
  {
  }

  /** MOD and MOD4: division, or subtraction of BASE << top down to BASE. */
  method Mod(a: nat, divide: bool, top: nat) returns (r: nat)
    requires a < Shl(BASE, top + 1)
    ensures r == a % BASE
  {
    if divide {
      return a % BASE;
    }
    r := a;
    var i := top + 1;
    while i > 0
      invariant 0 <= i <= top + 1 && r < Shl(BASE, i) && r % BASE == a % BASE
    {
      i := i - 1;
      ShlMultiple(i);
      if r >= Shl(BASE, i) {
        Less(r, Shl(BASE, i));
        r := r - Shl(BASE, i);
      }
    }
  }

  lemma ModRange()
    ensures Shl(BASE, 17) > WORD && Shl(BASE, 5) == 2096672
  {
    assert Shl(BASE, 4) == 1048336;
    assert Shl(BASE, 8) == 16773376;
    assert Shl(BASE, 12) == 268374016;
    assert Shl(BASE, 16) == 4293984256;
  }

  // ----------------------------------------------------------------- the sums

  /** The running sums agree with the definition up to multiples of BASE. */
  ghost predicate Agrees(a: nat, b: nat, x: Sums, s: seq<byte>) {
    a % BASE == Fold(x, s).a % BASE && b % BASE == Fold(x, s).b % BASE
  }

  lemma AddByte(a: nat, b: nat, x: Sums, s: seq<byte>, v: byte, n: nat)
    requires Agrees(a, b, x, s) && Bounded(a, b, n)
    ensures Agrees(a + v, b + (a + v), x, s + [v]) && Bounded(a + v, b + (a + v), n + 1)
  {
    hide Fold, Next;
    FoldMore(x, s, v);
    NextMod(a, b, Fold(x, s), v);
  }

  lemma NextMod(a: nat, b: nat, p: Sums, v: byte)
    requires a % BASE == p.a % BASE && b % BASE == p.b % BASE
    ensures (a + v) % BASE == Next(p, v).a % BASE && (b + (a + v)) % BASE == Next(p, v).b % BASE
  {
    var c := (p.a + v) % BASE;
    SumMod(a, p.a, v, v);
    SumMod(b, p.b, a + v, c);
  }

  /** Congruent numbers have congruent sums. */
  lemma SumMod(a: nat, p: nat, v: nat, w: nat)
    requires a % BASE == p % BASE && v % BASE == w % BASE
    ensures (a + v) % BASE == (p + w) % BASE
  {
    RestOnly(a, v);
    RestOnly(p, w);
  }

  lemma RestOnly(a: nat, v: nat)
    ensures (a + v) % BASE == (a % BASE + v % BASE) % BASE
  {
    MultipleOff(a % BASE + v % BASE, a / BASE + v / BASE);
  }

  lemma {:induction false} MultipleOff(r: nat, k: nat)
    ensures (r + BASE * k) % BASE == r % BASE
  {
    if k > 0 {
      MultipleOff(r, k - 1);
    }
  }

  /** n bytes are added to both sums without reduction. */
  method Add(buf: array<byte>, from: nat, n: nat, a0: nat, b0: nat, ghost x: Sums, ghost m: nat)
    returns (a: nat, b: nat)
    requires from + n <= buf.Length && m + n <= NMAX
    requires Agrees(a0, b0, x, buf[..from]) && Bounded(a0, b0, m)
    ensures Agrees(a, b, x, buf[..from + n]) && Bounded(a, b, m + n) && a < WORD && b < WORD
  {
    hide Agrees, Bounded;
    a, b := a0, b0;
    var i := 0;
    while i < n
      invariant 0 <= i <= n
      invariant Agrees(a, b, x, buf[..from + i]) && Bounded(a, b, m + i)
    {
      AddByte(a, b, x, buf[..from + i], buf[from + i], m + i);
      assert buf[..from + i] + [buf[from + i]] == buf[..from + (i + 1)];
      a := a + buf[from + i];
      b := b + a;
      NmaxFits(a, b, m + (i + 1));
      i := i + 1;
    }
    NmaxFits(a, b, m + n);
  }

  /** Where the reduction is exact: always, but for seeds that no checksum produces. */
  predicate Settled(x: Sums, s: seq<byte>) {
    if |s| == 0 then x.a < BASE && x.b < BASE
    else if |s| == 1 then x.b + (x.a + s[0]) % BASE < 2 * BASE
    else true
  }

  /** Every value that a checksum can have is a settled seed. */
  lemma ValidSeeds(x: Sums, s: seq<byte>)
    requires x.a < BASE && x.b < BASE
    ensures Settled(x, s)
  {
  }

  /** Seeds that are not settled: one is left too high by the single-byte path, the other is reduced though
      there is no byte. */
  lemma Unsettled()
    ensures !Settled(Sums(65520, 65535), [0]) && Checksum(65520 + 65536 * 65535, [0]) == Pack(Sums(65520, 13))
    ensures !Settled(Sums(65521, 0), []) && Checksum(65521, []) == 65521
  {
    var x := Sums(65520, 65535);
    UnpackPack(x);
    FoldMore(x, [], 0);
    assert [] + [0] == [0];
    UnpackPack(Sums(65521, 0));
  }

  lemma Reduced(a: nat, b: nat, x: Sums, s: seq<byte>)
    requires Agrees(a, b, x, s)
    ensures Agrees(a % BASE, b % BASE, x, s) && Bounded(a % BASE, b % BASE, 0)
    ensures s != [] ==> Sums(a % BASE, b % BASE) == Fold(x, s)
  {
    var p := Fold(x, s);
    assert s != [] ==> p.a < BASE && p.b < BASE;
    hide Fold, Tri;
  }

  lemma Fresh(x: Sums)
    requires x.a < 65536 && x.b < 65536
    ensures Agrees(x.a, x.b, x, []) && Bounded(x.a, x.b, 0)
  {
  }

  /** The path for a single byte, which subtracts at most once. */
  method OneByte(a0: nat, b0: nat, v: byte) returns (a: nat, b: nat)
    requires a0 < 65536 && b0 < 65536
    ensures a < BASE && b < 65536
    ensures Sums(a, b) == Fold(Sums(a0, b0), [v]) <==> Settled(Sums(a0, b0), [v])
  {
    FoldMore(Sums(a0, b0), [], v);
    assert [] + [v] == [v];
    hide Fold;
    a, b := a0 + v, b0;
    if a >= BASE {
      a := a - BASE;
    }
    b := b + a;
    if b >= BASE {
      b := b - BASE;
    }
    assert Fold(Sums(a0, b0), []) == Sums(a0, b0);
  }

  /** The path for fewer than 16 bytes. */
  method FewBytes(buf: array<byte>, len: nat, a0: nat, b0: nat, divide: bool) returns (a: nat, b: nat)
    requires len <= buf.Length && len < 16 && a0 < 65536 && b0 < 65536
    ensures a < BASE && b < BASE
    ensures len > 0 ==> Sums(a, b) == Fold(Sums(a0, b0), buf[..len])
    ensures len == 0 ==> (Sums(a, b) == Sums(a0, b0) <==> a0 < BASE && b0 < BASE)
  {
    hide Agrees, Bounded, Fold, Shl;
    ghost var x := Sums(a0, b0);
    Fresh(x);
    FoldSmall(x, []);
    assert buf[..0] == [];
    a, b := Add(buf, 0, len, a0, b0, x, 0);
    Reduced(a, b, x, buf[..len]);
    if len == 0 {
      NoBytes(a, b, x);
    }
    SmallSums(a, b, len);
    ModRange();
    if a >= BASE {
      a := a - BASE;
    }
    b := Mod(b, divide, 4);
  }

  lemma NoBytes(a: nat, b: nat, x: Sums)
    requires Agrees(a, b, x, [])
    ensures a % BASE == x.a % BASE && b % BASE == x.b % BASE
  {
  }

  lemma SmallSums(a: nat, b: nat, n: nat)
    requires Bounded(a, b, n) && n < 16
    ensures a < 2 * BASE && b < 2096672
  {
    TriMono(n, 15);
    TriClosed(15);
  }

  /** The path for 16 bytes or more: one reduction for NMAX bytes, one for the rest. */
  method ManyBytes(buf: array<byte>, len: nat, a0: nat, b0: nat, divide: bool) returns (a: nat, b: nat)
    requires 16 <= len <= buf.Length && a0 < 65536 && b0 < 65536
    ensures Sums(a, b) == Fold(Sums(a0, b0), buf[..len]) && a < BASE && b < BASE
  {
    hide Agrees, Bounded, Fold, Shl;
    ghost var x := Sums(a0, b0);
    Fresh(x);
    ModRange();
    assert buf[..0] == [];
    a, b := a0, b0;
    var done, left := 0, len;
    while left >= NMAX
      invariant 0 <= left && done + left == len
      invariant Agrees(a, b, x, buf[..done]) && Bounded(a, b, 0)
      invariant done > 0 ==> Sums(a, b) == Fold(x, buf[..done]) && a < BASE && b < BASE
    {
      left := left - NMAX;
      a, b := Blocks16(buf, done, NMAX, a, b, x, 0);
      done := done + NMAX;
      Reduced(a, b, x, buf[..done]);
      a := Mod(a, divide, 16);
      b := Mod(b, divide, 16);
    }
    if left != 0 {
      var tail := left % 16;
      a, b := Blocks16(buf, done, left - tail, a, b, x, 0);
      a, b := Add(buf, done + (left - tail), tail, a, b, x, left - tail);
      done := done + left;
      Reduced(a, b, x, buf[..done]);
      a := Mod(a, divide, 16);
      b := Mod(b, divide, 16);
    }
    assert done == len;
  }

  /** 16 sums at a time. */
  method Blocks16(buf: array<byte>, from: nat, n: nat, a0: nat, b0: nat, ghost x: Sums, ghost m: nat)
    returns (a: nat, b: nat)
    requires from + n <= buf.Length && n % 16 == 0 && m + n <= NMAX
    requires Agrees(a0, b0, x, buf[..from]) && Bounded(a0, b0, m)
    ensures Agrees(a, b, x, buf[..from + n]) && Bounded(a, b, m + n) && a < WORD && b < WORD
  {
    hide Agrees, Bounded;
    a, b := a0, b0;
    var i := 0;
    while i < n
      invariant 0 <= i <= n && i % 16 == 0
      invariant Agrees(a, b, x, buf[..from + i]) && Bounded(a, b, m + i)
    {
      a, b := Add(buf, from + i, 16, a, b, x, m + i);
      i := i + 16;
    }
    NmaxFits(a, b, m + n);
  }

  /**
   adler32: no sum ever exceeds 32 bits, and the result is the checksum of the buffer for
   every seed that is itself a checksum; for the other seeds it is so exactly when Settled.
   */
  method Adler32(adler: nat, buf: array?<byte>, len: nat, divide: bool) returns (r: nat)
    requires if buf == null then len != 1 else len <= buf.Length
    ensures buf == null ==> r == 1
    ensures buf != null ==> (r == Checksum(adler, buf[..len]) <==> Settled(Unpack(adler), buf[..len]))
    ensures buf != null && adler % 65536 < BASE && adler / 65536 < BASE ==> r == Checksum(adler, buf[..len])
  {
    hide Fold;
    var a, b := adler % 65536, adler / 65536 % 65536;
    ghost var x := Unpack(adler);
    if buf != null {
      FoldSmall(x, buf[..len]);
    }
    if len == 1 {
      a, b := OneByte(a, b, buf[0]);
      assert buf[..1] == [buf[0]];
      PackOnce(Sums(a, b), Fold(x, buf[..len]));
      return a + 65536 * b;
    }
    if buf == null {
      return 1;
    }
    if len < 16 {
      a, b := FewBytes(buf, len, a, b, divide);
      assert len == 0 ==> buf[..len] == [];
    } else {
      a, b := ManyBytes(buf, len, a, b, divide);
    }
    PackOnce(Sums(a, b), Fold(x, buf[..len]));
    r := a + 65536 * b;
  }

  lemma FoldSmall(x: Sums, s: seq<byte>)
    requires x.a < 65536
    ensures Fold(x, []) == x && Fold(x, s).a < 65536
  {
  }

  lemma PackOnce(x: Sums, y: Sums)
    requires x.a < 65536 && y.a < 65536
    ensures Pack(x) == Pack(y) <==> x == y
  {
  }
}
