/**
 pathnext (src/cmd/3d/pathnext.c:34-112): rewrites a path to the next view in its own
 buffer.  Strings in the buffer end with NUL, as they do in C.
 */
module PathNext {
  import opened ViewTable

  /** The string u stands at i. */
  ghost predicate IsStr(b: seq<char>, i: nat, u: string) {
    && i + |u| < |b| && b[i + |u|] == '\0'
    && forall k :: 0 <= k < |u| ==> u[k] != '\0' && b[i + k] == u[k]
  }

  /** The buffer with u written over it at d. */
  function Patch(b: seq<char>, d: nat, u: string): (r: seq<char>)
    requires d + |u| <= |b|
    ensures |r| == |b|
  {
    b[..d] + u + b[d + |u|..]
  }

  method StrLen(buf: array<char>, i: nat, ghost u: string) returns (n: nat)
    requires IsStr(buf[..], i, u)
    ensures n == |u|
  {
    n := 0;
    while buf[i + n] != '\0'
      invariant n <= |u| && (n < |u| ==> u[n] != '\0' && buf[i + n] == u[n])
      decreases |u| - n
    {
      n := n + 1;
      assert n < |u| ==> buf[..][i + n] == u[n];
      assert n == |u| ==> buf[..][i + n] == '\0';
    }
  }

  /** strcopy and strcpy, forward, to a place at or before the source. */
  method StrCopy(buf: array<char>, d: nat, s: nat, ghost u: string)
    requires IsStr(buf[..], s, u) && d <= s
    modifies buf
    ensures buf[..] == Patch(old(buf[..]), d, u + ['\0'])
  {
    ghost var b := buf[..];
    var k := 0;
    while true
      invariant 0 <= k <= |u|
      invariant buf[..d] == b[..d] && buf[d + k..] == b[d + k..]
      invariant buf[d..d + k] == u[..k]
      decreases |u| - k
    {
      assert buf[s + k] == buf[d + k..][s - d] == b[s + k];
      assert b[s + k] == if k < |u| then u[k] else '\0';
      buf[d + k] := buf[s + k];
      if buf[d + k] == '\0' {
        break;
      }
      k := k + 1;
    }
    assert buf[d + k + 1..] == b[d + k + 1..] && buf[d..d + k + 1] == u + ['\0'];
    Whole(buf[..], d, d + k + 1);
  }

  /** Moves what is from lo up to and including hi, from the end. */
  method ShiftRight(buf: array<char>, lo: nat, hi: int, shift: nat)
    requires lo <= hi + 1 && hi + shift < buf.Length
    modifies buf
    ensures buf[..] == Patch(old(buf[..]), lo + shift, old(buf[lo..hi + 1]))
  {
    ghost var b := buf[..];
    var tmp := hi;
    while tmp >= lo
      invariant lo - 1 <= tmp <= hi
      invariant buf[..tmp + 1 + shift] == b[..tmp + 1 + shift] && buf[hi + 1 + shift..] == b[hi + 1 + shift..]
      invariant buf[tmp + 1 + shift..hi + 1 + shift] == b[tmp + 1..hi + 1]
    {
      assert buf[tmp] == buf[..tmp + 1 + shift][tmp] == b[tmp];
      ghost var moved := buf[tmp + 1 + shift..hi + 1 + shift];
      buf[tmp + shift] := buf[tmp];
      assert buf[tmp + shift..hi + 1 + shift] == [b[tmp]] + moved == b[tmp..hi + 1];
      tmp := tmp - 1;
    }
    Whole(buf[..], lo + shift, hi + 1 + shift);
  }

  lemma Whole(b: seq<char>, i: nat, j: nat)
    requires i <= j <= |b|
    ensures b == b[..i] + b[i..j] + b[j..]
  {
  }

  /** strncpy of a string that is at least n long. */
  method StrNCopy(buf: array<char>, v: string)
    requires |v| <= buf.Length
    modifies buf
    ensures buf[..] == Patch(old(buf[..]), 0, v)
  {
    ghost var b := buf[..];
    var k := 0;
    while k < |v|
      invariant 0 <= k <= |v|
      invariant buf[..k] == v[..k] && buf[k..] == b[k..]
    {
      buf[k] := v[k];
      k := k + 1;
    }
    assert buf[..] == buf[..|v|] + buf[|v|..];
  }

  predicate NoNul(u: string) {
    forall k :: 0 <= k < |u| ==> u[k] != '\0'
  }

  // ------------------------------------------------------------ the rewriting

  /** The tail of a path behind its first n characters and the slash there. */
  lemma Tail(b: seq<char>, n: nat, path: string)
    requires IsStr(b, 0, path) && n < |path|
    ensures IsStr(b, n + 1, path[n + 1..]) && NoNul(path[n + 1..]) && |path| < |b|
  {
    var u := path[n + 1..];
    forall k | 0 <= k < |u|
      ensures u[k] == path[n + 1 + k]
    {
    }
  }

  lemma Patched(b: seq<char>, d: nat, u: string)
    requires d + |u| < |b| && NoNul(u)
    ensures IsStr(Patch(b, d, u + ['\0']), d, u)
    ensures forall i :: 0 <= i < |b| && (i < d || d + |u| < i) ==> Patch(b, d, u + ['\0'])[i] == b[i]
  {
  }

  /** Moving a string, with its NUL. */
  lemma Moved(b: seq<char>, i: nat, u: string, shift: nat)
    requires IsStr(b, i, u) && i + |u| + shift < |b|
    ensures IsStr(Patch(b, i + shift, b[i..i + |u| + 1]), i + shift, u)
    ensures forall k :: 0 <= k < |b| && (k < i + shift || i + shift + |u| < k) ==>
      Patch(b, i + shift, b[i..i + |u| + 1])[k] == b[k]
  {
    var c := Patch(b, i + shift, b[i..i + |u| + 1]);
    forall k | 0 <= k < |u|
      ensures u[k] != '\0' && c[i + shift + k] == u[k]
    {
      assert c[i + shift + k] == b[i..i + |u| + 1][k] == b[i + k];
    }
    assert c[i + shift + |u|] == b[i..i + |u| + 1][|u|];
  }

  /** Brings the part of the path behind the key to where it belongs behind the value. */
  method MoveTail(buf: array<char>, n: nat, vlen: nat, len: nat, ghost path: string)
    requires IsStr(buf[..], 0, path) && len == |path| && n < len && vlen + (len - n) < buf.Length
    modifies buf
    ensures IsStr(buf[..], vlen + 1, path[n + 1..])
    ensures forall i :: len < i < buf.Length && vlen + (len - n) < i ==> buf[i] == old(buf[i])
  {
    hide Patch, IsStr, NoNul;
    ghost var b, rest := buf[..], path[n + 1..];
    Tail(b, n, path);
    var shift := vlen - n;
    if shift < 0 {
      StrCopy(buf, vlen + 1, n + 1, rest);
      Patched(b, vlen + 1, rest);
    } else if shift > 0 {
      ShiftRight(buf, n + 1, len, shift);
      Moved(b, n + 1, rest, shift);
      ghost var c := buf[..];
      StrCopy(buf, vlen + 1, n + shift + 1, rest);
      Patched(c, vlen + 1, rest);
    }
  }

  /** The path with its first n characters replaced by v. */
  function Replaced(path: string, n: nat, v: string): string
    requires n <= |path|
  {
    v + path[n..]
  }

  /** Makes the path at the start of the buffer v and what follows its first n characters. */
  method Substitute(buf: array<char>, n: nat, v: string, len: nat, ghost path: string)
    requires IsStr(buf[..], 0, path) && len == |path| && n <= len && NoNul(v)
    requires n == len || path[n] == '/'
    requires |v| + (len - n) < buf.Length
    modifies buf
    ensures IsStr(buf[..], 0, Replaced(path, n, v))
    ensures forall i :: len < i < buf.Length && |v| + (len - n) < i ==> buf[i] == old(buf[i])
  {
    if n < len {
      MoveTail(buf, n, |v|, len, path);
    }
    ghost var b := buf[..];
    StrNCopy(buf, v);
    buf[|v|] := if n < len then '/' else '\0';
    ghost var u := Replaced(path, n, v);
    forall k | 0 <= k < |u|
      ensures u[k] != '\0' && buf[..][k] == u[k]
    {
      if k > |v| {
        assert b[|v| + 1 + (k - |v| - 1)] == path[n + 1..][k - |v| - 1];
      }
    }
  }

  /** The next view of a path: what the entry found makes of it. */
  ghost function NextView(t: Table, path: string, i: nat): string
    requires t.Valid() && i < |t.Live()| && Leads(t.Live()[i].key, path)
    reads t, t.table
  {
    Replaced(path, |t.Live()[i].key|, t.Live()[i].val)
  }

  /** What pathnext returns: whether there is a next view, where in the buffer what was given
      as extra now is, the entries visited and the level. */
  datatype Result = Result(ok: bool, sp: nat, visits: set<nat>, level: nat)

  /** Whatever view comes next, there is room for it. */
  ghost predicate Fits(t: Table, path: string, visits: set<nat>, room: nat)
    requires t.Valid()
    reads t, t.table
  {
    forall i :: 0 <= i < |t.Live()| && i !in visits && Leads(t.Live()[i].key, path) ==>
      NoNul(t.Live()[i].val) && |t.Live()[i].val| + |path| - |t.Live()[i].key| < room
  }

  /** pathnext without anything behind the path. */
  method Next(buf: array<char>, t: Table, visits: set<nat>, level: nat, limit: nat, ghost path: string)
    returns (r: Result, ghost i: int)
    requires t.Valid() && IsStr(buf[..], 0, path) && Fits(t, path, visits, buf.Length)
    modifies buf
    ensures r.ok <==> level + 1 < limit && i >= 0
    ensures level + 1 < limit ==> LongestOf(t.Live(), path, visits, i)
    ensures !r.ok ==> r.visits == visits && r.level == level && buf[..] == old(buf[..])
    ensures r.ok ==> r.visits == visits + {i} && r.level == level + 1 && r.sp == 0
    ensures r.ok ==> i < |t.Live()| && Leads(t.Live()[i].key, path) && IsStr(buf[..], 0, NextView(t, path, i))
    ensures r.ok ==> NextView(t, path, i) == t.Live()[i].val + path[|t.Live()[i].key|..]
  {
    i := -1;
    r := Result(false, 0, visits, level);
    if level + 1 >= limit {
      return;
    }
    var len := StrLen(buf, 0, path);
    assert buf[..len] == path by {
      TextOf(buf[..], path);
    }
    var found, visits' := t.Prefix(buf[..len], visits);
    i := found;
    if found < 0 {
      return;
    }
    var m := t.table[found];
    assert m == t.Live()[found];
    Substitute(buf, |m.key|, m.val, len, path);
    r := Result(true, 0, visits', level + 1);
  }

  lemma TextOf(b: seq<char>, path: string)
    requires IsStr(b, 0, path)
    ensures b[..|path|] == path
  {
  }

  /** pathnext with more text further on in the buffer, which ends up behind the path. */
  method NextWith(buf: array<char>, extra0: nat, t: Table, visits: set<nat>, level: nat, limit: nat,
                  ghost path: string, ghost more: string) returns (r: Result, ghost i: int)
    requires t.Valid() && IsStr(buf[..], 0, path) && IsStr(buf[..], extra0, more) && |path| < extra0
    requires Fits(t, path, visits, buf.Length - extra0 - |more| + |path|)
    modifies buf
    ensures r.ok <==> level + 1 < limit && i >= 0
    ensures level + 1 < limit ==> LongestOf(t.Live(), path, visits, i)
    ensures !r.ok ==> r.visits == visits && r.level == level && buf[..] == old(buf[..])
    ensures r.ok ==> r.visits == visits + {i} && r.level == level + 1
    ensures r.ok ==> i < |t.Live()| && Leads(t.Live()[i].key, path) && r.sp == |NextView(t, path, i)|
    ensures r.ok ==> IsStr(buf[..], 0, NextView(t, path, i) + more)
    ensures r.ok ==> NextView(t, path, i) == t.Live()[i].val + path[|t.Live()[i].key|..]
  {
    i := -1;
    r := Result(false, 0, visits, level);
    if level + 1 >= limit {
      return;
    }
    var len := StrLen(buf, 0, path);
    assert buf[..len] == path by {
      TextOf(buf[..], path);
    }
    var found, visits' := t.Prefix(buf[..len], visits);
    i := found;
    if found < 0 {
      return;
    }
    var m := t.table[found];
    assert m == t.Live()[found];
    var shift := |m.val| - |m.key|;
    Splice(buf, extra0, |m.key|, m.val, len, path, more);
    r := Result(true, len + shift, visits', level + 1);
  }

  /** The buffer work of pathnext when there is more text behind the path. */
  method Splice(buf: array<char>, extra0: nat, n: nat, v: string, len: nat, ghost path: string, ghost more: string)
    requires IsStr(buf[..], 0, path) && IsStr(buf[..], extra0, more) && len == |path| < extra0 && n <= len && NoNul(v)
    requires (n == len || path[n] == '/') && extra0 + |more| + |v| < buf.Length + n
    modifies buf
    ensures IsStr(buf[..], 0, Replaced(path, n, v) + more)
  {
    hide IsStr, Patch;
    IsStrFits(buf[..], extra0, more);
    var shift, extra := |v| - n, extra0;
    ghost var b := buf[..];
    if shift > 0 {
      var size := StrLen(buf, extra, more);
      ShiftRight(buf, extra, extra + size, shift);
      Moved(b, extra, more, shift);
      extra := extra + shift;
    }
    ghost var c := buf[..];
    Before(b, c, extra0, path);
    Substitute(buf, n, v, len, path);
    ghost var d := buf[..];
    Behind(c, d, extra, more);
    StrCopy(buf, len + shift, extra, more);
    Appended(d, buf[..], Replaced(path, n, v), more);
  }

  lemma IsStrFits(b: seq<char>, i: nat, u: string)
    requires IsStr(b, i, u)
    ensures i + |u| < |b| && NoNul(u)
  {
  }

  lemma Behind(b: seq<char>, c: seq<char>, n: nat, u: string)
    requires IsStr(b, n, u) && |b| == |c| && forall i :: n <= i < |b| ==> c[i] == b[i]
    ensures IsStr(c, n, u)
  {
  }

  /** A string in the unchanged part of a buffer. */
  lemma Before(b: seq<char>, c: seq<char>, n: nat, path: string)
    requires IsStr(b, 0, path) && |path| < n <= |b| == |c| && forall i :: 0 <= i < n ==> c[i] == b[i]
    ensures IsStr(c, 0, path)
  {
  }

  lemma Appended(b: seq<char>, c: seq<char>, u: string, more: string)
    requires IsStr(b, 0, u) && |u| + |more| < |b| && NoNul(more) && c == Patch(b, |u|, more + ['\0'])
    ensures IsStr(c, 0, u + more)
  {
    forall k | 0 <= k < |u + more|
      ensures (u + more)[k] != '\0' && c[k] == (u + more)[k]
    {
    }
  }
}
