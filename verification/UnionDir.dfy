/**
 The union directory stream (src/cmd/3d/dir3d.c:70-147, 168-233): a directory is listed through all
 its views, names of upper views first, each name once.  The file system is an oracle.
 */
module UnionDir {
  import opened ViewTable
  import opened PathNext
  import opened PathReal
  import opened Wrappers

  /** A directory entry: its name and its inode, which is not 0. */
  datatype Entry = Entry(name: string, ino: nat)

  /** A directory opened at some level. */
  datatype View = View(dir: string, level: nat, entries: seq<Entry>)

  const OPAQUE := "/.../..."

  predicate Hidden(name: string) {
    "..." <= name
  }

  /** The entries of a directory, and the inode of a path. */
  datatype Files = Files(list: string -> Option<seq<Entry>>, ino: string -> Option<nat>)

  function InodeOr0(o: Option<nat>): nat {
    if o.Some? then o.value else 0
  }

  /** The directories of the chain that can be opened. */
  ghost function Opened(fs: Files, chain: seq<string>): (r: seq<View>)
    ensures |r| <= |chain|
    ensures forall v :: 0 <= v < |r| ==> r[v].level < |chain| && r[v].dir == chain[r[v].level]
  {
    if chain == [] then []
    else
      var n := |chain| - 1;
      Opened(fs, chain[..n]) +
      if fs.list(chain[n]).Some? then [View(chain[n], n, fs.list(chain[n]).value)] else []
  }

  // What is listed.

  /** The inode that marks removed names, once k entries of the view were read. */
  function Mark(entries: seq<Entry>, mark: nat, k: nat): nat
    requires k <= |entries|
  {
    if mark != 0 || k == 0 then mark
    else
      var m := Mark(entries, mark, k - 1);
      if m == 0 && entries[k - 1].name == "..." then entries[k - 1].ino else m
  }

  predicate HasName(entries: seq<Entry>, name: string) {
    exists k :: 0 <= k < |entries| && entries[k].name == name
  }

  /** An upper view has an entry of that name. */
  predicate Covered(views: seq<View>, v: nat, name: string)
    requires v <= |views|
  {
    exists u :: 0 <= u < v && HasName(views[u].entries, name)
  }

  /** Entry k of view v is returned. */
  predicate Listed(views: seq<View>, marks: seq<nat>, boundary: bool, v: nat, k: nat)
    requires v < |views| == |marks| && k < |views[v].entries|
  {
    var e := views[v].entries[k];
    && !Hidden(e.name)
    && ((boundary && e.name == ".") || !Covered(views, v, e.name))
    && e.ino != Mark(views[v].entries, marks[v], k)
  }

  /** What is returned of the first k entries of view v. */
  function Part(views: seq<View>, marks: seq<nat>, boundary: bool, v: nat, k: nat): seq<Entry>
    requires v < |views| == |marks| && k <= |views[v].entries|
  {
    if k == 0 then []
    else
      Part(views, marks, boundary, v, k - 1) +
      if Listed(views, marks, boundary, v, k - 1) then [views[v].entries[k - 1]] else []
  }

  /** What is returned of the first v views. */
  function Listing(views: seq<View>, marks: seq<nat>, boundary: bool, v: nat): seq<Entry>
    requires v <= |views| == |marks|
  {
    if v == 0 then []
    else Listing(views, marks, boundary, v - 1) + Part(views, marks, boundary, v - 1, |views[v - 1].entries|)
  }

  /** No entry is one that the views hide: their names begin with three dots. */
  predicate NoneHidden(out: seq<Entry>) {
    forall i :: 0 <= i < |out| ==> !("..." <= out[i].name)
  }

  lemma {:induction false} PartHides(views: seq<View>, marks: seq<nat>, boundary: bool, v: nat, k: nat)
    requires v < |views| == |marks| && k <= |views[v].entries|
    ensures NoneHidden(Part(views, marks, boundary, v, k))
  {
    if k > 0 {
      PartHides(views, marks, boundary, v, k - 1);
    }
  }

  lemma {:induction false} ListingHides(views: seq<View>, marks: seq<nat>, boundary: bool, v: nat)
    requires v <= |views| == |marks|
    ensures NoneHidden(Listing(views, marks, boundary, v))
  {
    if v > 0 {
      ListingHides(views, marks, boundary, v - 1);
      PartHides(views, marks, boundary, v - 1, |views[v - 1].entries|);
    }
  }

  // Boundaries.

  /** The entries but for those of the directory itself. */
  function Others(out: seq<Entry>): seq<Entry> {
    if out == [] then []
    else Others(out[..|out| - 1]) + if out[|out| - 1].name == "." then [] else [out[|out| - 1]]
  }

  lemma {:induction false} OthersJoin(a: seq<Entry>, b: seq<Entry>)
    ensures Others(a + b) == Others(a) + Others(b)
  {
    if b == [] {
      assert a + b == a;
    } else {
      OthersJoin(a, b[..|b| - 1]);
      assert (a + b)[..|a + b| - 1] == a + b[..|b| - 1];
    }
  }

  lemma OthersOne(out: seq<Entry>, e: Entry)
    ensures Others(out + [e]) == Others(out) + if e.name == "." then [] else [e]
  {
    assert (out + [e])[..|out|] == out;
  }

  lemma {:induction false} PartOthers(views: seq<View>, marks: seq<nat>, v: nat, k: nat)
    requires v < |views| == |marks| && k <= |views[v].entries|
    ensures Others(Part(views, marks, true, v, k)) == Others(Part(views, marks, false, v, k))
  {
    if k > 0 {
      PartOthers(views, marks, v, k - 1);
      var e := views[v].entries[k - 1];
      forall b ensures Others(Part(views, marks, b, v, k)) == Others(Part(views, marks, b, v, k - 1)) +
        if Listed(views, marks, b, v, k - 1) && e.name != "." then [e] else []
      {
        var p := Part(views, marks, b, v, k - 1);
        OthersOne(p, e);
        assert p + [] == p;
      }
    }
  }

  /** With boundaries all is listed as without them, but for the directory itself. */
  lemma {:induction false} BoundaryOthers(views: seq<View>, marks: seq<nat>, v: nat)
    requires v <= |views| == |marks|
    ensures Others(Listing(views, marks, true, v)) == Others(Listing(views, marks, false, v))
  {
    if v > 0 {
      var m := |views[v - 1].entries|;
      BoundaryOthers(views, marks, v - 1);
      PartOthers(views, marks, v - 1, m);
      OthersJoin(Listing(views, marks, true, v - 1), Part(views, marks, true, v - 1, m));
      OthersJoin(Listing(views, marks, false, v - 1), Part(views, marks, false, v - 1, m));
    }
  }

  lemma {:induction false} PartDot(views: seq<View>, marks: seq<nat>, v: nat, k: nat, j: nat)
    requires v < |views| == |marks| && j < k <= |views[v].entries| && views[v].entries[j].name == "."
    requires views[v].entries[j].ino != Mark(views[v].entries, marks[v], j)
    ensures views[v].entries[j] in Part(views, marks, true, v, k)
  {
    hide Mark;
    if j < k - 1 {
      PartDot(views, marks, v, k - 1, j);
    }
  }

  /** With boundaries the directory itself is listed for each view that has it, unless it is removed there. */
  lemma {:induction false} BoundaryDot(views: seq<View>, marks: seq<nat>, n: nat, v: nat, j: nat)
    requires v < n <= |views| == |marks| && j < |views[v].entries| && views[v].entries[j].name == "."
    requires views[v].entries[j].ino != Mark(views[v].entries, marks[v], j)
    ensures views[v].entries[j] in Listing(views, marks, true, n)
  {
    hide Mark;
    if v < n - 1 {
      BoundaryDot(views, marks, n - 1, v, j);
    } else {
      PartDot(views, marks, v, |views[v].entries|, j);
    }
  }

  // The names met so far.

  /** Names that the overlay keeps. */
  predicate Kept(boundary: bool, name: string) {
    !Hidden(name) && !(boundary && name == ".")
  }

  /** The name was met in view u, which is not the last, when k entries of view v were read. */
  ghost predicate Met(views: seq<View>, v: nat, k: nat, name: string, u: nat) {
    && u + 1 < |views| && u <= v
    && HasName(if u < v then views[u].entries else Upto(views[u].entries, k), name)
  }

  ghost function Upto(entries: seq<Entry>, k: nat): seq<Entry> {
    if k <= |entries| then entries[..k] else entries
  }

  ghost predicate MetBefore(views: seq<View>, v: nat, k: nat, name: string) {
    exists u: nat :: Met(views, v, k, name, u)
  }

  /** For each name met, the overlay has the first view it was met in. */
  ghost predicate Overlays(views: seq<View>, boundary: bool, v: nat, k: nat, overlay: map<string, nat>) {
    forall name :: Kept(boundary, name) ==> OverlaidAt(views, v, k, overlay, name)
  }

  ghost predicate OverlaidAt(views: seq<View>, v: nat, k: nat, overlay: map<string, nat>, name: string) {
    && (name in overlay <==> MetBefore(views, v, k, name))
    && (name in overlay ==> Met(views, v, k, name, overlay[name]) && !Covered(views, overlay[name], name))
  }

  /** The overlay tells whether an upper view has the name. */
  lemma Tells(views: seq<View>, boundary: bool, v: nat, k: nat, overlay: map<string, nat>, name: string)
    requires Overlays(views, boundary, v, k, overlay) && v < |views|
    ensures |views| == 1 ==> !Covered(views, v, name)
    ensures Kept(boundary, name) ==> ((name in overlay && overlay[name] < v) <==> Covered(views, v, name))
  {
    if !Kept(boundary, name) {
      return;
    }
    assert OverlaidAt(views, v, k, overlay, name);
    if Covered(views, v, name) {
      var u :| 0 <= u < v && HasName(views[u].entries, name);
      assert Met(views, v, k, name, u);
    }
  }

  lemma MetMore(views: seq<View>, v: nat, k: nat, name: string)
    requires v < |views| && k < |views[v].entries|
    ensures forall u: nat :: Met(views, v, k + 1, name, u) <==>
      Met(views, v, k, name, u) || (u == v && v + 1 < |views| && views[v].entries[k].name == name)
    ensures MetBefore(views, v, k + 1, name) <==>
      MetBefore(views, v, k, name) || (v + 1 < |views| && views[v].entries[k].name == name)
  {
    var e := views[v].entries[k];
    assert views[v].entries[..k + 1] == views[v].entries[..k] + [e];
    HasMore(views[v].entries[..k], e, name);
    hide HasName;
    if MetBefore(views, v, k + 1, name) {
      var u: nat :| Met(views, v, k + 1, name, u);
      assert Met(views, v, k, name, u) || u == v;
    }
    if MetBefore(views, v, k, name) {
      var u: nat :| Met(views, v, k, name, u);
      assert Met(views, v, k + 1, name, u);
    } else if v + 1 < |views| && e.name == name {
      assert Met(views, v, k + 1, name, v);
    }
  }

  lemma HasMore(a: seq<Entry>, e: Entry, name: string)
    ensures HasName(a + [e], name) <==> HasName(a, name) || e.name == name
  {
    var b := a + [e];
    assert b[|a|] == e;
    if HasName(a, name) {
      var i :| 0 <= i < |a| && a[i].name == name;
      assert b[i].name == name;
    }
  }

  lemma MetOn(views: seq<View>, v: nat, name: string)
    requires v + 1 < |views|
    ensures forall u: nat :: Met(views, v + 1, 0, name, u) <==> Met(views, v, |views[v].entries|, name, u)
    ensures MetBefore(views, v + 1, 0, name) <==> MetBefore(views, v, |views[v].entries|, name)
  {
    var n := |views[v].entries|;
    assert views[v].entries[..n] == views[v].entries;
    if MetBefore(views, v, n, name) {
      var u: nat :| Met(views, v, n, name, u);
      assert Met(views, v + 1, 0, name, u);
    }
    if MetBefore(views, v + 1, 0, name) {
      var u: nat :| Met(views, v + 1, 0, name, u);
      assert Met(views, v, n, name, u);
    }
  }

  /** The overlay once an entry was read. */
  function Put(views: seq<View>, boundary: bool, v: nat, overlay: map<string, nat>, name: string): map<string, nat> {
    if !Kept(boundary, name) || v + 1 >= |views| || (name in overlay && overlay[name] < v) then overlay
    else overlay[name := v]
  }

  /** One more entry of the view was read. */
  lemma EntryRead(views: seq<View>, boundary: bool, v: nat, k: nat, overlay: map<string, nat>)
    requires Overlays(views, boundary, v, k, overlay)
    requires v < |views| && k < |views[v].entries|
    ensures Overlays(views, boundary, v, k + 1, Put(views, boundary, v, overlay, views[v].entries[k].name))
  {
    var e := views[v].entries[k];
    var now := Put(views, boundary, v, overlay, e.name);
    forall name | Kept(boundary, name) ensures OverlaidAt(views, v, k + 1, now, name) {
      assert OverlaidAt(views, v, k, overlay, name);
      MetMore(views, v, k, name);
      Tells(views, boundary, v, k, overlay, name);
      hide MetBefore, Met, Covered;
    }
  }

  /** The view was read to its end, and there is another. */
  lemma ViewRead(views: seq<View>, boundary: bool, v: nat, overlay: map<string, nat>)
    requires v + 1 < |views| && Overlays(views, boundary, v, |views[v].entries|, overlay)
    ensures Overlays(views, boundary, v + 1, 0, overlay)
  {
    forall name | Kept(boundary, name) ensures OverlaidAt(views, v + 1, 0, overlay, name) {
      assert OverlaidAt(views, v, |views[v].entries|, overlay, name);
      MetOn(views, v, name);
      hide MetBefore, Met, Covered;
    }
  }

  /** The state of a stream: entry at of view viewp is next. */
  datatype Pos = Pos(viewp: nat, at: nat, opaque_: seq<nat>, overlay: map<string, nat>)

  ghost predicate Ok(views: seq<View>, marks: seq<nat>, boundary: bool, p: Pos) {
    && |views| == |marks| == |p.opaque_| && p.viewp < |views| && p.at <= |views[p.viewp].entries|
    && p.opaque_[p.viewp] == Mark(views[p.viewp].entries, marks[p.viewp], p.at)
    && (forall v :: p.viewp < v < |views| ==> p.opaque_[v] == marks[v])
    && Overlays(views, boundary, p.viewp, p.at, p.overlay)
  }

  /** What was returned so far. */
  ghost function Given(views: seq<View>, marks: seq<nat>, boundary: bool, p: Pos): seq<Entry>
    requires Ok(views, marks, boundary, p)
  {
    Listing(views, marks, boundary, p.viewp) + Part(views, marks, boundary, p.viewp, p.at)
  }

  /** The next entry is read. */
  function ReadOne(views: seq<View>, boundary: bool, p: Pos): Pos
    requires p.viewp < |views| == |p.opaque_| && p.at < |views[p.viewp].entries|
  {
    var e := views[p.viewp].entries[p.at];
    Pos(p.viewp, p.at + 1,
        if e.name == "..." && p.opaque_[p.viewp] == 0 then p.opaque_[p.viewp := e.ino] else p.opaque_,
        if |views| > 1 then Put(views, boundary, p.viewp, p.overlay, e.name) else p.overlay)
  }

  predicate Returns(views: seq<View>, boundary: bool, p: Pos)
    requires p.viewp < |views| == |p.opaque_| && p.at < |views[p.viewp].entries|
  {
    var e := views[p.viewp].entries[p.at];
    && !Hidden(e.name) && e.ino != p.opaque_[p.viewp]
    && (|views| > 1 && Kept(boundary, e.name) && e.name in p.overlay ==> p.overlay[e.name] >= p.viewp)
  }

  lemma Advance(views: seq<View>, marks: seq<nat>, boundary: bool, p: Pos)
    requires Ok(views, marks, boundary, p) && p.at < |views[p.viewp].entries|
    ensures var q := ReadOne(views, boundary, p);
      && Ok(views, marks, boundary, q)
      && Given(views, marks, boundary, q) == Given(views, marks, boundary, p) +
         if Returns(views, boundary, p) then [views[p.viewp].entries[p.at]] else []
  {
    var e := views[p.viewp].entries[p.at];
    Tells(views, boundary, p.viewp, p.at, p.overlay, e.name);
    EntryRead(views, boundary, p.viewp, p.at, p.overlay);
    var m := Mark(views[p.viewp].entries, marks[p.viewp], p.at);
    assert Mark(views[p.viewp].entries, marks[p.viewp], p.at + 1) == if m == 0 && e.name == "..." then e.ino else m;
    hide Overlays, Mark, Hidden, Covered;
    assert Listed(views, marks, boundary, p.viewp, p.at) <==> Returns(views, boundary, p);
  }

  lemma Switch(views: seq<View>, marks: seq<nat>, boundary: bool, p: Pos)
    requires Ok(views, marks, boundary, p) && p.at == |views[p.viewp].entries| && p.viewp + 1 < |views|
    ensures var q := p.(viewp := p.viewp + 1, at := 0);
      Ok(views, marks, boundary, q) && Given(views, marks, boundary, q) == Given(views, marks, boundary, p)
  {
    ViewRead(views, boundary, p.viewp, p.overlay);
  }

  class Stream {
    const fs: Files
    const boundary: bool
    var views: seq<View>
    // the inodes that mark removed names as they were when the views were opened
    ghost var marks: seq<nat>
    var p: Pos

    constructor (fs: Files, boundary: bool)
      ensures this.fs == fs && this.boundary == boundary
    {
      this.fs, this.boundary := fs, boundary;
      views, marks, p := [], [], Pos(0, 0, [], map[]);
    }

    ghost predicate Valid()
      reads this
    {
      Ok(views, marks, boundary, p)
    }

    ghost function SoFar(): seq<Entry>
      requires Valid()
      reads this
    {
      Given(views, marks, boundary, p)
    }

    /** A directory is opened, if it is there. */
    method Enter(dir: string, level: nat, vs0: seq<View>, ms0: seq<nat>, ghost chain: seq<string>)
      returns (vs: seq<View>, ms: seq<nat>)
      requires vs0 == Opened(fs, chain) && MarksOf(fs, vs0, ms0) && level == |chain|
      ensures vs == Opened(fs, chain + [dir]) && MarksOf(fs, vs, ms) && vs0 <= vs
      ensures |vs| == |vs0| + if fs.list(dir).Some? then 1 else 0
    {
      vs, ms := vs0, ms0;
      OpenedMore(fs, chain, dir);
      var d := fs.list(dir);
      if d.Some? {
        vs := vs + [View(dir, level, d.value)];
        ms := ms + [InodeOr0(fs.ino(dir + OPAQUE))];
      }
    }

    /** opendir3d: the directory in the views that have it, down the chain of the views of its path. */
    method Open(buf: array<char>, t: Table, limit: nat, ghost path: string)
      returns (ok: bool, ghost chain: seq<string>, ghost picks: seq<nat>)
      requires t.Valid() && IsStr(buf[..], 0, path) && (forall i :: 0 <= i < |t.Live()| ==> NoNul(t.Live()[i].val))
      requires |path| + Left(t.Live(), {}) < buf.Length
      modifies this, buf
      ensures ok <==> fs.list(path).Some?
      ensures ok ==> Valid() && views == Opened(fs, chain) && MarksOf(fs, views, marks) && SoFar() == []
      ensures IsChain(t.Live(), chain, picks) && chain[0] == path
      ensures ok ==> Ended(t.Live(), chain, picks, limit)
    {
      hide IsStr, Fits, LeftOf, Ascends, Patch, Ok, Given, Opened, MarksOf, IsChain, LongestOf, Leads, Taken;
      ok, chain, picks := false, [path], [];
      ghost var s := t.Live();
      var len := StrLen(buf, 0, path);
      TextOf(buf[..], path);
      NoneOpened(fs);
      FirstPath(s, path);
      var vs, ms := Enter(buf[..len], 0, [], [], []);
      if vs == [] {
        return;
      }
      assert [] + [path] == chain;
      var level := 0;
      var visits: set<nat> := {};
      TakenBound(|s|, visits);
      while true
        invariant t.Live() == s && |chain| == level + 1 && |picks| == level && IsStr(buf[..], 0, chain[level])
        invariant IsChain(s, chain, picks) && chain[0] == path && visits == Taken(picks) && |visits| == level <= |s|
        invariant (forall i :: i in visits ==> i < |s|) && (level > 0 ==> level < limit)
        invariant |chain[level]| + Left(s, visits) < buf.Length
        invariant vs == Opened(fs, chain) && MarksOf(fs, vs, ms) && |vs| > 0
        decreases |s| - level
      {
        ghost var cur := chain[level];
        Room(t, cur, visits, buf.Length);
        var r;
        ghost var i;
        r, i := PathNext.Next(buf, t, visits, level, limit, cur);
        if !r.ok {
          break;
        }
        LeftOne(s, visits, |s|, i);
        ghost var next := NextView(t, cur, i);
        ChainMore(s, chain, picks, i);
        TakenMore(picks, i);
        chain, picks := chain + [next], picks + [i];
        visits, level := r.visits, r.level;
        TakenBound(|s|, visits);
        len := StrLen(buf, 0, next);
        TextOf(buf[..], next);
        vs, ms := Enter(buf[..len], level, vs, ms, chain[..level]);
      }
      AtStart(fs, vs, ms, boundary);
      views, marks, p, ok := vs, ms, Pos(0, 0, ms, map[]), true;
    }

    /** The stream read to exhaustion. */
    method ReadAll() returns (out: seq<Entry>)
      requires Valid() && SoFar() == []
      modifies this`p
      ensures out == Listing(views, marks, boundary, |views|) && NoneHidden(out)
    {
      out := [];
      ghost var all := views;
      while true
        invariant Valid() && SoFar() == out
        decreases |views| - p.viewp, |views[p.viewp].entries| - p.at
      {
        var e := Read();
        if e.None? {
          ListingHides(views, marks, boundary, |views|);
          return;
        }
        out := out + [e.value];
      }
    }

    /** readdir3d: the next entry to be listed, or none when all views were read. */
    method Read() returns (e: Option<Entry>)
      requires Valid()
      modifies this`p
      ensures Valid()
      ensures e.Some? ==> SoFar() == old(SoFar()) + [e.value]
      ensures e.None? ==> SoFar() == old(SoFar()) == Listing(views, marks, boundary, |views|)
      ensures e.Some? ==> old(p.viewp) < p.viewp || (p.viewp == old(p.viewp) && old(p.at) < p.at)
    {
      hide Ok, Listing, Given, ReadOne, Returns;
      Bounds(views, marks, boundary, p);
      while true
        invariant Valid() && InBounds(views, p) && SoFar() == old(SoFar())
        invariant old(p.viewp) < p.viewp || (p.viewp == old(p.viewp) && old(p.at) <= p.at)
        decreases |views| - p.viewp, |views[p.viewp].entries| - p.at
      {
        ghost var start := p;
        while p.at == |views[p.viewp].entries|
          invariant Valid() && InBounds(views, p) && SoFar() == old(SoFar()) && (p == start || p.viewp > start.viewp)
          decreases |views| - p.viewp
        {
          if p.viewp + 1 == |views| {
            AllRead(views, marks, boundary, p);
            return None;
          }
          Switch(views, marks, boundary, p);
          p := p.(viewp := p.viewp + 1, at := 0);
        }
        Advance(views, marks, boundary, p);
        var dp := views[p.viewp].entries[p.at];
        var q, show := Take(views, boundary, p, dp);
        p := q;
        if show {
          return Some(dp);
        }
      }
    }
  }

  /** What becomes of the entry just read. */
  method Take(views: seq<View>, boundary: bool, p: Pos, dp: Entry) returns (q: Pos, show: bool)
    requires InBounds(views, p) && p.at < |views[p.viewp].entries| && dp == views[p.viewp].entries[p.at]
    ensures q == ReadOne(views, boundary, p) && (show <==> Returns(views, boundary, p))
    ensures InBounds(views, q) && q.viewp == p.viewp && q.at == p.at + 1
  {
    q, show := p.(at := p.at + 1), false;
    if Hidden(dp.name) {
      if dp.name == "..." && q.opaque_[q.viewp] == 0 {
        q := q.(opaque_ := q.opaque_[q.viewp := dp.ino]);
      }
      return;
    }
    if |views| > 1 && (!boundary || dp.name != ".") {
      if dp.name in q.overlay && q.overlay[dp.name] < q.viewp {
        return;
      }
      if q.viewp + 1 < |views| {
        q := q.(overlay := q.overlay[dp.name := q.viewp]);
      }
    }
    show := dp.ino != q.opaque_[q.viewp];
  }

  /** The marks of the views when they are opened. */
  ghost predicate MarksOf(fs: Files, views: seq<View>, marks: seq<nat>) {
    |marks| == |views| && forall v :: 0 <= v < |views| ==> marks[v] == InodeOr0(fs.ino(views[v].dir + OPAQUE))
  }

  /** There is no next view. */
  ghost predicate Ended(s: seq<Map>, chain: seq<string>, picks: seq<nat>, limit: nat) {
    && |chain| > 0 && (|picks| > 0 ==> |picks| < limit)
    && (|chain| >= limit || LongestOf(s, chain[|chain| - 1], Taken(picks), -1))
  }

  lemma OpenedMore(fs: Files, chain: seq<string>, next: string)
    ensures Opened(fs, chain + [next]) ==
      Opened(fs, chain) + if fs.list(next).Some? then [View(next, |chain|, fs.list(next).value)] else []
  {
    assert (chain + [next])[..|chain|] == chain;
  }

  lemma NoneOpened(fs: Files)
    ensures Opened(fs, []) == [] && MarksOf(fs, [], [])
  {
  }

  lemma AtStart(fs: Files, views: seq<View>, marks: seq<nat>, boundary: bool)
    requires MarksOf(fs, views, marks) && |views| > 0
    ensures Ok(views, marks, boundary, Pos(0, 0, marks, map[]))
    ensures Given(views, marks, boundary, Pos(0, 0, marks, map[])) == []
  {
    assert Upto(views[0].entries, 0) == [];
  }

  predicate InBounds(views: seq<View>, p: Pos) {
    |views| == |p.opaque_| && p.viewp < |views| && p.at <= |views[p.viewp].entries|
  }

  lemma Bounds(views: seq<View>, marks: seq<nat>, boundary: bool, p: Pos)
    requires Ok(views, marks, boundary, p)
    ensures InBounds(views, p)
  {
  }

  lemma AllRead(views: seq<View>, marks: seq<nat>, boundary: bool, p: Pos)
    requires Ok(views, marks, boundary, p) && p.viewp + 1 == |views| && p.at == |views[p.viewp].entries|
    ensures Given(views, marks, boundary, p) == Listing(views, marks, boundary, |views|)
  {
  }
}
