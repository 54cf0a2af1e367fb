/**
 The sorted tables of the 3d file system (src/cmd/3d/lib.c:332-475): binary search with
 insertion and deletion in place, and the search for the longest prefix of a path.
 */
module ViewTable {
  import opened Names
  import opened Wrappers

  const TABSIZE: nat := 32

  /** A mapping from one path to another. */
  datatype Map = Map(key: string, val: string)

  // ----------------------------------------------------------------- prefixes

  predicate IsPrefix(a: string, b: string) {
    |a| <= |b| && b[..|a|] == a
  }

  /** The key names the path or a directory on the way to it. */
  predicate Leads(key: string, path: string) {
    IsPrefix(key, path) && (|key| == |path| || path[|key|] == '/')
  }

  /** A key leads to itself, and to what goes on behind it with a slash. */
  lemma LeadsMeans(key: string, path: string)
    ensures Leads(key, path) <==> path == key || key + "/" <= path
  {
    if key + "/" <= path {
      assert path[..|key|] == (key + "/")[..|key|] && path[|key|] == (key + "/")[|key|];
    }
    if Leads(key, path) && |key| < |path| {
      assert path[..|key| + 1] == key + "/";
    }
  }

  /** Strings that agree up to i and differ there are ordered by that character. */
  lemma {:induction false} LessAt(a: string, b: string, i: nat)
    requires i < |a| && i < |b| && a[..i] == b[..i]
    ensures a[i] < b[i] ==> Compare(a, b) < 0
    ensures a[i] > b[i] ==> Compare(a, b) > 0
    decreases i
  {
    if i > 0 {
      assert a[0] == a[..i][0] && b[0] == b[..i][0];
      assert a[1..][..i - 1] == a[..i][1..] && b[1..][..i - 1] == b[..i][1..];
      LessAt(a[1..], b[1..], i - 1);
    }
  }

  /** A proper prefix is smaller. */
  lemma {:induction false} PrefixLess(a: string, b: string)
    requires IsPrefix(a, b)
    ensures if |a| == |b| then a == b else Less(a, b)
    decreases |a|
  {
    if a != [] {
      assert b[0] == b[..|a|][0] == a[0];
      assert b[1..][..|a| - 1] == b[..|a|][1..] == a[1..];
      PrefixLess(a[1..], b[1..]);
      assert a == [a[0]] + a[1..] && b == [b[0]] + b[1..];
    }
  }

  /** Of two prefixes of the same string the smaller is the shorter. */
  lemma PrefixesNest(a: string, b: string, s: string)
    requires IsPrefix(a, s) && IsPrefix(b, s) && Less(a, b)
    ensures |a| < |b|
  {
    if |b| <= |a| {
      assert a[..|b|] == s[..|a|][..|b|] == s[..|b|] == b;
      PrefixLess(b, a);
      CompareOrder(a, b);
    }
  }

  // ------------------------------------------------------- comparing in place

  /** How the characters of key and of the key of an entry compare. */
  datatype Contrast = EntryEnds | KeyBelow | KeyAbove(read: nat)

  /** The inner loop of search. */
  method Contrasts(key: string, e: string) returns (c: Contrast)
    ensures c == EntryEnds ==> IsPrefix(e, key)
    ensures c == KeyBelow ==> Less(key, e)
    ensures c.KeyAbove? ==> Less(e, key) && 0 < c.read <= |key| && c.read <= |e|
                            && key[..c.read - 1] == e[..c.read - 1] && e[c.read - 1] < key[c.read - 1]
  {
    var i := 0;
    while true
      invariant i <= |key| && i <= |e| && key[..i] == e[..i]
      decreases |e| - i
    {
      if i >= |e| {
        return EntryEnds;
      }
      if i >= |key| {
        assert e[..|key|] == key;
        PrefixLess(key, e);
        return KeyBelow;
      }
      LessAt(key, e, i);
      if key[i] < e[i] {
        return KeyBelow;
      }
      if key[i] > e[i] {
        CompareOrder(key, e);
        return KeyAbove(i + 1);
      }
      i := i + 1;
    }
  }

  // ------------------------------------------------------------------ the table

  /** Keys strictly ascend. */
  ghost predicate Ascends(s: seq<Map>) {
    forall i, j :: 0 <= i < j < |s| ==> Less(s[i].key, s[j].key)
  }

  /** Everything before i is below the key and everything from j on above it. */
  ghost predicate Between(s: seq<Map>, key: string, i: int, j: int)
    requires 0 <= i && j <= |s|
  {
    && (forall k :: 0 <= k < i && k < |s| ==> Less(s[k].key, key))
    && (forall k :: 0 <= j <= k < |s| ==> Less(key, s[k].key))
  }

  lemma BelowTo(s: seq<Map>, key: string, i: nat)
    requires Ascends(s) && i < |s| && Less(s[i].key, key)
    ensures forall k :: 0 <= k <= i ==> Less(s[k].key, key)
  {
    forall k | 0 <= k <= i
      ensures Less(s[k].key, key)
    {
      if k < i {
        LessTrans(s[k].key, s[i].key, key);
      }
    }
  }

  lemma AboveFrom(s: seq<Map>, key: string, i: nat)
    requires Ascends(s) && i < |s| && Less(key, s[i].key)
    ensures forall k :: i <= k < |s| ==> Less(key, s[k].key)
  {
    forall k | i <= k < |s|
      ensures Less(key, s[k].key)
    {
      if i < k {
        LessTrans(key, s[i].key, s[k].key);
      }
    }
  }

  lemma Inserted(t: seq<Map>, s: seq<Map>, i: nat, m: Map)
    requires i <= |s| && |t| == |s| + 1 && t[i] == m
    requires (forall k :: 0 <= k < i ==> t[k] == s[k]) && forall k :: i < k <= |s| ==> t[k] == s[k - 1]
    ensures t == s[..i] + [m] + s[i..]
  {
  }

  lemma InsertAscends(s: seq<Map>, i: nat, m: Map)
    requires Ascends(s) && i <= |s| && Between(s, m.key, i, i)
    ensures Ascends(s[..i] + [m] + s[i..])
  {
    hide Less;
    var t := s[..i] + [m] + s[i..];
    forall a, b | 0 <= a < b < |t|
      ensures Less(t[a].key, t[b].key)
    {
      if a != i && b != i {
        assert t[a] == s[if a < i then a else a - 1] && t[b] == s[if b < i then b else b - 1];
      }
    }
  }

  /** What a request to find, store or delete does to the entries, as for a finite map that
      has room for TABSIZE keys and keeps the first value of a key. */
  datatype Request = Find | Store(val: string) | Delete

  /** The key is at i. */
  ghost predicate At(s: seq<Map>, key: string, i: int) {
    0 <= i < |s| && s[i].key == key
  }

  ghost predicate Served(q: Request, key: string, s: seq<Map>, s': seq<Map>, r: int) {
    if exists i :: At(s, key, i) then
      if q.Delete? then r == -1 && exists i :: At(s, key, i) && s' == s[..i] + s[i + 1..]
      else At(s, key, r) && s' == s
    else if q.Store? && |s| < TABSIZE then
      0 <= r <= |s| && s' == s[..r] + [Map(key, q.val)] + s[r..]
    else r == -1 && s' == s
  }

  class Table {
    // one more slot than there are entries: deleting from a full table reads behind its end
    const table: array<Map>
    var size: nat

    ghost predicate Valid()
      reads this, table
    {
      table.Length == TABSIZE + 1 && size <= TABSIZE && Ascends(table[..size])
    }

    /** The live entries. */
    ghost function Live(): seq<Map>
      requires Valid()
      reads this, table
    {
      table[..size]
    }

    constructor ()
      ensures Valid() && Live() == [] && fresh(table)
    {
      table := new Map[TABSIZE + 1](_ => Map("", ""));
      size := 0;
    }

    /** Removing the entry at i: what is behind it moves down, with the slot behind the end. */
    method Remove(i: nat)
      requires Valid() && i < size
      modifies this, table
      ensures Valid() && Live() == old(Live())[..i] + old(Live())[i + 1..]
    {
      hide Less, Ascends;
      ghost var s := Live();
      var mid, end := i, size;
      while mid < end
        invariant i <= mid <= end == |s| && size == end
        invariant forall k :: (0 <= k < i || mid <= k) && k < end ==> table[k] == s[k]
        invariant forall k :: i <= k < mid && k + 1 < end ==> table[k] == s[k + 1]
      {
        table[mid] := table[mid + 1];
        mid := mid + 1;
      }
      size := size - 1;
      DropAscends(s, i);
      assert table[..size] == s[..i] + s[i + 1..];
    }

    /** Making room at i: what is there and behind it moves up. */
    method Insert(i: nat, m: Map)
      requires Valid() && i <= size < TABSIZE && Between(Live(), m.key, i, i)
      modifies this, table
      ensures Valid() && Live() == old(Live())[..i] + [m] + old(Live())[i..]
    {
      hide Less, Ascends, Between;
      ghost var s := Live();
      var end := size;
      size := size + 1;
      var hi := end;
      while hi > i
        invariant i <= hi <= end == |s| && size == end + 1
        invariant forall k :: 0 <= k < hi ==> table[k] == s[k]
        invariant forall k :: hi < k <= end ==> table[k] == s[k - 1]
      {
        table[hi] := table[hi - 1];
        hi := hi - 1;
      }
      table[i] := m;
      Inserted(table[..size], s, i, m);
      InsertAscends(s, i, m);
    }

    /** search, but for the prefix mode: -1 stands for the null pointer. */
    method Search(key: string, q: Request) returns (r: int)
      requires Valid()
      modifies this, table
      ensures Valid() && Served(q, key, old(Live()), Live(), r)
      ensures q.Store? ==> (r >= 0 <==> |old(Live())| < 32 || exists k :: At(old(Live()), key, k))
      ensures q.Store? && r >= 0 && |old(Live())| < |Live()| ==> Live()[r] == Map(key, q.val)
      ensures !q.Delete? && (exists k :: At(old(Live()), key, k)) ==> Live() == old(Live()) && Live()[r].key == key
    {
      hide Less, Ascends;
      ghost var s := Live();
      var lo, hi := 0, size - 1;
      while lo <= hi
        invariant 0 <= lo <= hi + 1 <= size == |s| && Between(s, key, lo, hi + 1)
        invariant Valid() && Live() == s
        decreases hi - lo
      {
        var mid := lo + (hi - lo) / 2;
        var e := table[mid].key;
        assert s[mid].key == e;
        var c := Contrasts(key, e);
        if c == EntryEnds {
          PrefixLess(e, key);
          if |key| == |e| {
            assert At(s, key, mid);
            if !q.Delete? {
              return mid;
            }
            Remove(mid);
            return -1;
          }
          BelowTo(s, key, mid);
          lo := mid + 1;
        } else if c == KeyBelow {
          AboveFrom(s, key, mid);
          hi := mid - 1;
        } else {
          BelowTo(s, key, mid);
          lo := mid + 1;
        }
      }
      NotThere(s, key, lo);
      if !q.Store? || size >= TABSIZE {
        return -1;
      }
      Insert(lo, Map(key, q.val));
      return lo;
    }

    /** The prefix mode of search, for a path and the set of entries visited before. */
    method Prefix(path: string, visits: set<nat>) returns (r: int, visits': set<nat>)
      requires Valid()
      ensures LongestOf(Live(), path, visits, r)
      ensures r == -1 || (0 <= r < |Live()| && r !in visits && (path == Live()[r].key || Live()[r].key + "/" <= path))
      ensures forall k ::
        0 <= k < |Live()| && k !in visits && (path == Live()[k].key || Live()[k].key + "/" <= path) ==>
          r >= 0 && |Live()[k].key| <= |Live()[r].key|
      ensures visits' == if r >= 0 then visits + {r} else visits
    {
      hide Less, LongestOf;
      ghost var s := Live();
      r, visits' := -1, visits;
      var lo := 0;
      NoneYet(s, path, visits);
      while lo < size
        invariant 0 <= lo <= size == |s| && -1 <= r < lo && LongestOf(s[..lo], path, visits, r)
      {
        var e := table[lo].key;
        assert s[lo].key == e;
        var c := Contrasts(path, e);
        if c == EntryEnds {
          if (|e| == |path| || path[|e|] == '/') && lo !in visits {
            TakeThis(s, path, visits, r, lo);
            r := lo;
            if |e| == |path| {
              NoLonger(s, path, visits, lo);
              break;
            }
          } else {
            SkipThis(s, path, visits, r, lo);
          }
        } else if c == KeyBelow {
          NoneBeyond(s, path, visits, r, lo);
          break;
        } else {
          NotPrefix(path, e, c.read - 1);
          SkipThis(s, path, visits, r, lo);
          if r >= 0 {
            NeverLonger(s, path, visits, r, lo, c.read);
            if |table[r].key| >= c.read {
              break;
            }
          }
        }
        lo := lo + 1;
      }
      assert lo == |s| ==> s[..lo] == s;
      LongestMeans(s, path, visits, r);
      if r >= 0 {
        visits' := visits + {r};
      }
    }
  }

  lemma NoneYet(s: seq<Map>, path: string, visits: set<nat>)
    ensures LongestOf(s[..0], path, visits, -1)
  {
  }

  /** Of two entries that lead to the path the later is the longer. */
  lemma TakeThis(s: seq<Map>, path: string, visits: set<nat>, r: int, lo: nat)
    requires Ascends(s) && lo < |s| && LongestOf(s[..lo], path, visits, r) && lo !in visits && Leads(s[lo].key, path)
    ensures LongestOf(s[..lo + 1], path, visits, lo)
  {
    hide Less;
    forall k | 0 <= k < lo && Leads(s[k].key, path)
      ensures |s[k].key| <= |s[lo].key|
    {
      PrefixesNest(s[k].key, s[lo].key, path);
    }
  }

  lemma SkipThis(s: seq<Map>, path: string, visits: set<nat>, r: int, lo: nat)
    requires lo < |s| && LongestOf(s[..lo], path, visits, r) && (lo in visits || !Leads(s[lo].key, path))
    ensures LongestOf(s[..lo + 1], path, visits, r)
  {
    hide Leads;
    assert forall k :: 0 <= k < lo ==> s[..lo + 1][k] == s[..lo][k];
  }

  /** No entry that leads to the path is longer than the path. */
  lemma NoLonger(s: seq<Map>, path: string, visits: set<nat>, lo: nat)
    requires lo < |s| && LongestOf(s[..lo + 1], path, visits, lo) && |s[lo].key| == |path|
    ensures LongestOf(s, path, visits, lo)
  {
  }

  /** Above the path there are no prefixes of it. */
  lemma NoneBeyond(s: seq<Map>, path: string, visits: set<nat>, r: int, lo: nat)
    requires Ascends(s) && lo < |s| && LongestOf(s[..lo], path, visits, r) && Less(path, s[lo].key)
    ensures LongestOf(s, path, visits, r)
  {
    hide Less;
    AboveFrom(s, path, lo);
    forall k | lo <= k < |s|
      ensures !Leads(s[k].key, path)
    {
      if IsPrefix(s[k].key, path) {
        PrefixLess(s[k].key, path);
        CompareOrder(s[k].key, path);
        NotLess(path);
        LessFacts(path, s[k].key);
      }
    }
    assert forall k :: 0 <= k < lo ==> s[k] == s[..lo][k];
  }

  lemma LessFacts(a: string, b: string)
    requires Less(a, b)
    ensures !Less(b, a) && a != b
  {
    CompareOrder(a, b);
  }

  lemma NotPrefix(path: string, e: string, i: nat)
    requires i < |path| && i < |e| && e[i] != path[i]
    ensures !Leads(e, path)
  {
    assert |e| <= |path| ==> path[..|e|][i] == path[i];
  }

  /** The early exit that compares lengths is never taken in an ascending table. */
  lemma NeverLonger(s: seq<Map>, path: string, visits: set<nat>, r: int, lo: nat, read: nat)
    requires Ascends(s) && lo < |s| && 0 <= r < lo && LongestOf(s[..lo], path, visits, r)
    requires 0 < read <= |path| && read <= |s[lo].key|
    requires path[..read - 1] == s[lo].key[..read - 1] && s[lo].key[read - 1] < path[read - 1]
    ensures |s[r].key| < read
  {
    hide Less;
    var a, b := s[lo].key, s[r].key;
    if read <= |b| {
      assert path[..|b|] == b;
      assert b[..read - 1] == path[..read - 1] && b[read - 1] == path[read - 1];
      LessAt(a, b, read - 1);
      LessIs(a, b);
      LessFacts(b, a);
    }
  }

  lemma LessIs(a: string, b: string)
    ensures Less(a, b) <==> Compare(a, b) < 0
  {
  }

  lemma DropAscends(s: seq<Map>, i: nat)
    requires Ascends(s) && i < |s|
    ensures Ascends(s[..i] + s[i + 1..])
  {
    hide Less;
    var t := s[..i] + s[i + 1..];
    assert forall k :: 0 <= k < |t| ==> t[k] == s[if k < i then k else k + 1];
  }

  lemma NotThere(s: seq<Map>, key: string, i: nat)
    requires i <= |s| && Between(s, key, i, i)
    ensures !exists k :: At(s, key, k)
  {
    NotLess(key);
  }

  // ------------------------------------------------------------- prefix search

  /** Entry r is the longest that leads to the path and was not visited. */
  ghost predicate LongestOf(s: seq<Map>, path: string, visits: set<nat>, r: int) {
    && (r == -1 || (0 <= r < |s| && r !in visits && Leads(s[r].key, path)))
    && forall k :: 0 <= k < |s| && k !in visits && Leads(s[k].key, path) ==> r >= 0 && |s[k].key| <= |s[r].key|
  }

  lemma LongestMeans(s: seq<Map>, path: string, visits: set<nat>, r: int)
    requires LongestOf(s, path, visits, r)
    ensures r == -1 || (0 <= r < |s| && r !in visits && (path == s[r].key || s[r].key + "/" <= path))
    ensures forall k :: 0 <= k < |s| && k !in visits && (path == s[k].key || s[k].key + "/" <= path) ==>
      r >= 0 && |s[k].key| <= |s[r].key|
  {
    forall k | 0 <= k < |s| ensures Leads(s[k].key, path) <==> path == s[k].key || s[k].key + "/" <= path {
      LeadsMeans(s[k].key, path);
    }
  }

  // ----------------------------------------------------- refining a bounded map

  /** The entries are those of the finite map. */
  ghost predicate Maps(s: seq<Map>, mp: map<string, string>) {
    && (forall i :: 0 <= i < |s| ==> s[i].key in mp && mp[s[i].key] == s[i].val)
    && forall key :: key in mp ==> exists i :: At(s, key, i)
  }

  /** The map after a request; a full one takes no new keys, and no key is given a new value. */
  function After(q: Request, key: string, mp: map<string, string>, full: bool): map<string, string> {
    match q
    case Find => mp
    case Store(val) => if key in mp || full then mp else mp[key := val]
    case Delete => mp - {key}
  }

  /** The table serves every request as the bounded map would. */
  lemma ServesMap(q: Request, key: string, s: seq<Map>, s': seq<Map>, r: int, mp: map<string, string>)
    requires Ascends(s) && Maps(s, mp) && Served(q, key, s, s', r)
    ensures Maps(s', After(q, key, mp, |s| >= TABSIZE))
    ensures r >= 0 <==> !q.Delete? && key in After(q, key, mp, |s| >= TABSIZE)
    ensures r >= 0 ==> At(s', key, r)
  {
    hide Less;
    if exists i :: At(s, key, i) {
      if q.Delete? {
        var i :| At(s, key, i) && s' == s[..i] + s[i + 1..];
        DropMaps(s, i, mp);
      }
    } else if q.Store? && |s| < TABSIZE {
      AddMaps(s, r, Map(key, q.val), mp);
    }
  }

  lemma DropMaps(s: seq<Map>, i: nat, mp: map<string, string>)
    requires Ascends(s) && Maps(s, mp) && i < |s|
    ensures Maps(s[..i] + s[i + 1..], mp - {s[i].key})
  {
    hide Less;
    var t := s[..i] + s[i + 1..];
    forall k | 0 <= k < |t|
      ensures t[k].key in mp - {s[i].key} && mp[t[k].key] == t[k].val
    {
      var j := if k < i then k else k + 1;
      assert t[k] == s[j];
      LessFacts(s[if j < i then j else i].key, s[if j < i then i else j].key);
    }
    forall key | key in mp - {s[i].key}
      ensures exists k :: At(t, key, k)
    {
      var j :| At(s, key, j);
      assert At(t, key, if j < i then j else j - 1);
    }
  }

  lemma AddMaps(s: seq<Map>, i: nat, m: Map, mp: map<string, string>)
    requires Maps(s, mp) && i <= |s| && m.key !in mp
    ensures Maps(s[..i] + [m] + s[i..], mp[m.key := m.val])
  {
    var t, mq := s[..i] + [m] + s[i..], mp[m.key := m.val];
    forall k | 0 <= k < |t|
      ensures t[k].key in mq && mq[t[k].key] == t[k].val
    {
      if k != i {
        assert t[k] == s[if k < i then k else k - 1];
      }
    }
    forall key | key in mq
      ensures exists k :: At(t, key, k)
    {
      if key == m.key {
        assert At(t, key, i);
      } else {
        var j :| At(s, key, j);
        assert At(t, key, if j < i then j else j + 1);
      }
    }
  }

  // ------------------------------------------------- every sequence of requests

  /** What the bounded map answers: the value of the key, if it has one after the request. */
  function Answer(q: Request, key: string, mp: map<string, string>): Option<string> {
    if !q.Delete? && key in mp then Some(mp[key]) else None
  }

  function BoundedRun(mp: map<string, string>, ops: seq<(string, Request)>): seq<Option<string>>
    decreases |ops|
  {
    if ops == [] then []
    else
      var next := After(ops[0].1, ops[0].0, mp, |mp| >= TABSIZE);
      [Answer(ops[0].1, ops[0].0, next)] + BoundedRun(next, ops[1..])
  }

  /** The table has as many entries as the map has keys. */
  lemma SizeServed(q: Request, key: string, s: seq<Map>, s': seq<Map>, r: int, mp: map<string, string>)
    requires Maps(s, mp) && Served(q, key, s, s', r) && |s| == |mp|
    ensures |s'| == |After(q, key, mp, |s| >= TABSIZE)|
  {
    KeyThere(s, mp, key);
    hide Maps;
    if q.Delete? {
      OneLess(mp, key);
    } else if q.Store? {
      OneMore(mp, key, q.val);
    }
  }

  lemma KeyThere(s: seq<Map>, mp: map<string, string>, key: string)
    requires Maps(s, mp)
    ensures (exists i :: At(s, key, i)) <==> key in mp
  {
  }

  lemma OneLess(mp: map<string, string>, key: string)
    ensures |mp - {key}| == |mp| - if key in mp then 1 else 0
  {
    assert (mp - {key}).Keys == mp.Keys - {key};
    assert |mp - {key}| == |(mp - {key}).Keys| && |mp| == |mp.Keys|;
  }

  lemma OneMore(mp: map<string, string>, key: string, val: string)
    ensures |mp[key := val]| == |mp| + if key in mp then 0 else 1
  {
    var mq := mp[key := val];
    assert mq.Keys == mp.Keys + {key};
    assert |mq| == |mq.Keys| && |mp| == |mp.Keys|;
  }

  /** The table answers every sequence of requests as the bounded map would. */
  method RunRequests(ops: seq<(string, Request)>) returns (answers: seq<Option<string>>)
    ensures answers == BoundedRun(map[], ops)
  {
    hide Ascends, Maps, Served, After, Less;
    var t := new Table();
    answers := [];
    ghost var mp: map<string, string> := map[];
    NothingMapped();
    var i := 0;
    while i < |ops|
      invariant 0 <= i <= |ops| && fresh(t) && fresh(t.table) && t.Valid()
      invariant Maps(t.Live(), mp) && |t.Live()| == |mp|
      invariant answers + BoundedRun(mp, ops[i..]) == BoundedRun(map[], ops)
    {
      var key, q := ops[i].0, ops[i].1;
      ghost var s := t.Live();
      var r := t.Search(key, q);
      ghost var next := After(q, key, mp, |mp| >= TABSIZE);
      ServesMap(q, key, s, t.Live(), r, mp);
      SizeServed(q, key, s, t.Live(), r, mp);
      AnswerAt(t.Live(), next, key, r);
      ghost var before := answers;
      answers := answers + [if r >= 0 then Some(t.table[r].val) else None];
      RunStep(before, mp, ops, i, next, answers[|before|]);
      mp := next;
      i := i + 1;
    }
  }

  lemma RunStep(before: seq<Option<string>>, mp: map<string, string>, ops: seq<(string, Request)>, i: nat,
                next: map<string, string>, answer: Option<string>)
    requires i < |ops| && next == After(ops[i].1, ops[i].0, mp, |mp| >= TABSIZE)
    requires answer == Answer(ops[i].1, ops[i].0, next)
    ensures before + [answer] + BoundedRun(next, ops[i + 1..]) == before + BoundedRun(mp, ops[i..])
  {
    hide After, Answer;
    assert ops[i..][1..] == ops[i + 1..] && ops[i..][0] == ops[i];
  }

  lemma NothingMapped()
    ensures Maps([], map[])
  {
  }

  lemma AnswerAt(s: seq<Map>, mp: map<string, string>, key: string, r: int)
    requires Maps(s, mp)
    ensures At(s, key, r) ==> key in mp && mp[key] == s[r].val
  {
  }
}
