/**
 The descent of pathreal through the views (src/cmd/3d/pathreal.c:31-79, 357-451): while a path does
 not exist it is rewritten to the next view, and what is found may be marked as removed.  The file system is an oracle.
 */
module PathReal {
  import opened ViewTable
  import opened PathNext

  /** A file: what tells it from others, which is its inode and device, the number of its links and its
      permission bits. */
  datatype Node = Node(id: nat, links: nat, perm: nat)

  /** What lstat says of a path. */
  datatype Stat = NoEntry | Failed | Exists(node: Node)

  // Marks of removed names.

  const MARK: string := ".../..."
  const OLD_MARK: string := "..."

  /** A path up to its last slash. */
  function DirPart(path: string): (r: string)
    ensures r <= path
  {
    if path == "" || path[|path| - 1] == '/' then path else DirPart(path[..|path| - 1])
  }

  /** The file that marks removed names in a directory; of the old kind if there is none of the new. */
  function MarkOf(lstat: string -> Stat, dir: string): Stat {
    if lstat(dir + MARK).Exists? then lstat(dir + MARK) else lstat(dir + OLD_MARK)
  }

  /** The file is a link to the mark of its directory, and has no permission bits. */
  predicate Opaque(lstat: string -> Stat, path: string, st: Node) {
    && st.links > 1 && st.perm == 0
    && MarkOf(lstat, DirPart(path)).Exists? && MarkOf(lstat, DirPart(path)).node.id == st.id
  }

  /** The path is there, and not removed. */
  predicate Found(lstat: string -> Stat, path: string) {
    lstat(path).Exists? && !Opaque(lstat, path, lstat(path).node)
  }

  lemma {:induction false} DirPartFrom(path: string, base: nat)
    requires base <= |path| && forall k :: base <= k < |path| ==> path[k] != '/'
    ensures DirPart(path) == DirPart(path[..base])
  {
    if base < |path| {
      DirPartFrom(path[..|path| - 1], base);
      assert path[..|path| - 1][..base] == path[..base];
    } else {
      assert path[..base] == path;
    }
  }

  /** The text u and its end, written at base. */
  method Write(buf: array<char>, base: nat, u: string)
    requires base + |u| <= buf.Length
    modifies buf
    ensures buf[..] == Patch(old(buf[..]), base, u)
  {
    ghost var b := buf[..];
    var k := 0;
    while k < |u|
      invariant 0 <= k <= |u| && buf[..] == Patch(b, base, u[..k])
    {
      buf[base + k] := u[k];
      k := k + 1;
    }
    assert u[..k] == u;
  }

  lemma PatchedStr(b: seq<char>, dir: string, u: string)
    requires |dir| + |u| + 1 <= |b| && dir <= b && NoNul(dir) && NoNul(u)
    ensures IsStr(Patch(b, |dir|, u + ['\0']), 0, dir + u)
  {
  }

  lemma PatchBack(b: seq<char>, base: nat, u: string, v: string)
    requires base + |u| <= |b| && |v| <= |u|
    ensures Patch(Patch(b, base, u), base, b[base..base + |u|]) == b
    ensures Patch(Patch(Patch(b, base, u), base, v), base, b[base..base + |u|]) == b
  {
  }

  /** The old mark is the new one, cut short. */
  lemma CutShort(b: seq<char>, base: nat)
    requires base + 8 <= |b|
    ensures Patch(b, base, MARK + ['\0'])[base + 3 := '\0']
            == Patch(Patch(b, base, MARK + ['\0']), base, OLD_MARK + ['\0'])
  {
  }

  /** The place behind the last slash. */
  method LastSlash(buf: array<char>, ghost path: string) returns (base: nat)
    requires IsStr(buf[..], 0, path)
    ensures base <= |path| && path[..base] == DirPart(path) == buf[..base]
  {
    base := StrLen(buf, 0, path);
    TextOf(buf[..], path);
    while base > 0 && buf[base - 1] != '/'
      invariant 0 <= base <= |path| && forall k :: base <= k < |path| ==> path[k] != '/'
    {
      base := base - 1;
    }
    DirPartFrom(path, base);
    assert DirPart(path) == path[..base] == buf[..base];
  }

  lemma NoNulFront(b: seq<char>, path: string, base: nat)
    requires IsStr(b, 0, path) && base <= |path|
    ensures NoNul(path[..base])
  {
  }

  /** Looks for the mark behind base, in place, and restores what was there. */
  method LookForMark(buf: array<char>, lstat: string -> Stat, base: nat, ghost dir: string) returns (mark: Stat)
    requires base + 8 <= buf.Length && dir == buf[..base] && NoNul(dir)
    modifies buf
    ensures buf[..] == old(buf[..]) && mark == MarkOf(lstat, dir)
  {
    ghost var b := buf[..];
    assert dir == b[..base];
    hide Patch, IsStr, NoNul;
    var saved := buf[base..base + 8];
    assert saved == b[base..base + 8];
    Write(buf, base, MARK + ['\0']);
    assert NoNul(MARK) && NoNul(OLD_MARK);
    PatchedStr(b, dir, MARK);
    TextOf(buf[..], dir + MARK);
    mark := lstat(buf[..base + 7]);
    PatchBack(b, base, MARK + ['\0'], OLD_MARK + ['\0']);
    if !mark.Exists? {
      CutShort(b, base);
      DirKept(b, dir, MARK + ['\0']);
      PatchedStr(buf[..], dir, OLD_MARK);
      buf[base + 3] := '\0';
      TextOf(buf[..], dir + OLD_MARK);
      mark := lstat(buf[..base + 3]);
    }
    Write(buf, base, saved);
  }

  lemma DirKept(b: seq<char>, dir: string, u: string)
    requires dir <= b && |dir| + |u| <= |b|
    ensures dir <= Patch(b, |dir|, u)
  {
  }

  /** checkopaque: the name of the mark is written over the last component, and that is restored. */
  method CheckOpaque(buf: array<char>, lstat: string -> Stat, st: Node, ghost path: string) returns (r: bool)
    requires IsStr(buf[..], 0, path) && |DirPart(path)| + 8 <= buf.Length
    modifies buf
    ensures buf[..] == old(buf[..]) && (r <==> Opaque(lstat, path, st))
    ensures r ==> st.links > 1 && st.perm == 0
  {
    if st.links <= 1 || st.perm != 0 {
      return false;
    }
    var base := LastSlash(buf, path);
    NoNulFront(buf[..], path, base);
    var mark := LookForMark(buf, lstat, base, path[..base]);
    r := mark.Exists? && mark.node.id == st.id;
  }

  /** The paths tried one after the other, and the table entries that led from each to the next. */
  ghost predicate IsChain(s: seq<Map>, chain: seq<string>, picks: seq<nat>) {
    && |chain| == |picks| + 1
    && forall k :: 0 <= k < |picks| ==>
         LongestOf(s, chain[k], Taken(picks[..k]), picks[k]) && Leads(s[picks[k]].key, chain[k])
         && chain[k + 1] == Replaced(chain[k], |s[picks[k]].key|, s[picks[k]].val)
  }

  ghost function Taken(picks: seq<nat>): set<nat> {
    set i | i in picks
  }

  /** The room that the values of the entries not yet used can take. */
  ghost function Left(s: seq<Map>, visits: set<nat>): nat {
    LeftOf(s, visits, |s|)
  }

  ghost function LeftOf(s: seq<Map>, visits: set<nat>, n: nat): nat
    requires n <= |s|
  {
    if n == 0 then 0 else LeftOf(s, visits, n - 1) + if n - 1 in visits then 0 else |s[n - 1].val|
  }

  lemma {:induction false} LeftOne(s: seq<Map>, visits: set<nat>, n: nat, i: nat)
    requires i < n <= |s| && i !in visits
    ensures LeftOf(s, visits, n) >= |s[i].val|
    ensures LeftOf(s, visits + {i}, n) == LeftOf(s, visits, n) - |s[i].val|
  {
    if i < n - 1 {
      LeftOne(s, visits, n - 1, i);
    } else {
      LeftSame(s, visits, n - 1, i);
    }
  }

  lemma {:induction false} LeftSame(s: seq<Map>, visits: set<nat>, n: nat, i: nat)
    requires n <= i && n <= |s|
    ensures LeftOf(s, visits + {i}, n) == LeftOf(s, visits, n)
  {
    if n > 0 {
      LeftSame(s, visits, n - 1, i);
    }
  }

  /** Every step uses an entry that was not used before, so the table bounds the descent. */
  lemma {:induction false} TakenBound(n: nat, visits: set<nat>)
    requires forall i :: i in visits ==> i < n
    ensures |visits| <= n
  {
    if n > 0 {
      if n - 1 in visits {
        TakenBound(n - 1, visits - {n - 1});
      } else {
        TakenBound(n - 1, visits);
      }
    } else {
      assert visits == {};
    }
  }

  /** None of the first n paths exists. */
  ghost predicate Missing(lstat: string -> Stat, chain: seq<string>, n: nat) {
    n <= |chain| && forall k :: 0 <= k < n ==> lstat(chain[k]) == NoEntry
  }

  lemma FirstPath(s: seq<Map>, path: string)
    ensures IsChain(s, [path], []) && Taken([]) == {}
  {
  }

  lemma NoneMissing(lstat: string -> Stat, chain: seq<string>)
    ensures Missing(lstat, chain, 0)
  {
  }

  lemma MissingMore(lstat: string -> Stat, chain: seq<string>, n: nat, next: string)
    requires Missing(lstat, chain, n) && n < |chain| && lstat(chain[n]) == NoEntry
    ensures Missing(lstat, chain + [next], n + 1)
  {
  }

  lemma Room(t: Table, path: string, visits: set<nat>, room: nat)
    requires t.Valid() && (forall i :: 0 <= i < |t.Live()| ==> NoNul(t.Live()[i].val))
    requires |path| + Left(t.Live(), visits) < room
    ensures Fits(t, path, visits, room)
  {
    forall i | 0 <= i < |t.Live()| && i !in visits && Leads(t.Live()[i].key, path)
      ensures |t.Live()[i].val| + |path| - |t.Live()[i].key| < room
    {
      LeftOne(t.Live(), visits, |t.Live()|, i);
    }
  }

  /**
   The descent: it ends at the first path of the chain that exists, at a level that is the
   number of rewrites, and it ends for every table, however its entries refer to one another.
   */
  method Descend(buf: array<char>, t: Table, limit: nat, lstat: string -> Stat, ghost path: string)
    returns (ok: bool, level: nat, ghost chain: seq<string>, ghost picks: seq<nat>)
    requires t.Valid() && IsStr(buf[..], 0, path) && (forall i :: 0 <= i < |t.Live()| ==> NoNul(t.Live()[i].val))
    requires |path| + Left(t.Live(), {}) + 8 <= buf.Length
    modifies buf
    ensures IsChain(t.Live(), chain, picks) && chain[0] == path && |picks| <= |t.Live()|
    ensures |picks| > 0 ==> |picks| < limit
    ensures Missing(lstat, chain, |picks|)
    ensures level == |picks| && IsStr(buf[..], 0, chain[level])
    ensures ok <==> Found(lstat, chain[level])
    ensures lstat(chain[level]) == NoEntry ==>
              level + 1 >= limit || LongestOf(t.Live(), chain[level], Taken(picks), -1)
  {
    hide IsStr, Fits, LeftOf, Ascends, Patch, Missing, IsChain, LongestOf, Leads, Taken, Opaque;
    ok, level, chain, picks := false, 0, [path], [];
    ghost var s := t.Live();
    var visits: set<nat> := {};
    TakenBound(|s|, visits);
    FirstPath(s, path);
    NoneMissing(lstat, chain);
    while true
      invariant t.Live() == s && |chain| == level + 1 && |picks| == level && IsStr(buf[..], 0, chain[level])
      invariant IsChain(s, chain, picks) && chain[0] == path && visits == Taken(picks) && |visits| == level <= |s|
      invariant forall i :: i in visits ==> i < |s|
      invariant Missing(lstat, chain, level) && (level > 0 ==> level < limit)
      invariant |chain[level]| + Left(s, visits) + 8 <= buf.Length
      decreases |s| - level
    {
      ghost var cur := chain[level];
      var len := StrLen(buf, 0, cur);
      TextOf(buf[..], cur);
      var st := lstat(buf[..len]);
      if st.Exists? {
        var removed := CheckOpaque(buf, lstat, st.node, cur);
        ok := !removed;
        return;
      }
      if st == Failed {
        return;
      }
      Room(t, cur, visits, buf.Length);
      var r;
      ghost var i;
      r, i := Next(buf, t, visits, level, limit, cur);
      if !r.ok {
        return;
      }
      LeftOne(s, visits, |s|, i);
      ghost var next := NextView(t, cur, i);
      ChainMore(s, chain, picks, i);
      MissingMore(lstat, chain, level, next);
      TakenMore(picks, i);
      chain, picks := chain + [next], picks + [i];
      visits, level := r.visits, r.level;
      TakenBound(|s|, visits);
    }
  }

  lemma TakenMore(picks: seq<nat>, i: nat)
    ensures Taken(picks + [i]) == Taken(picks) + {i}
  {
  }

  lemma ChainMore(s: seq<Map>, chain: seq<string>, picks: seq<nat>, i: nat)
    requires IsChain(s, chain, picks) && LongestOf(s, chain[|picks|], Taken(picks), i)
    ensures Leads(s[i].key, chain[|picks|]) && |s[i].key| <= |chain[|picks|]|
    ensures IsChain(s, chain + [Replaced(chain[|picks|], |s[i].key|, s[i].val)], picks + [i])
  {
    var n := |picks|;
    var c, p := chain + [Replaced(chain[n], |s[i].key|, s[i].val)], picks + [i];
    forall k | 0 <= k < |p|
      ensures p[..k] == picks[..k] && c[k] == chain[k]
    {
    }
    assert picks[..n] == picks;
  }
}
