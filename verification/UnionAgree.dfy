/**
 What the union directory stream lists is what the descent of pathreal finds
 (src/cmd/3d/dir3d.c:107-146, 183-233; src/cmd/3d/pathreal.c:36-79, 357-451).
 */
module UnionAgree {
  import Names
  import opened ViewTable
  import opened PathNext
  import opened PathReal
  import opened UnionDir
  import opened Wrappers

  /** A directory has each name once, and inodes are not 0. */
  ghost predicate Sane(entries: seq<Entry>) {
    && (forall i, j :: 0 <= i < j < |entries| ==> entries[i].name != entries[j].name)
    && forall i :: 0 <= i < |entries| ==> entries[i].ino != 0
  }

  /** A mark that is found by reading the directory is found before the names that it removes. */
  ghost predicate MarkFirst(entries: seq<Entry>, mark: nat) {
    forall k :: 0 <= k < |entries| && !("..." <= entries[k].name) ==>
      (entries[k].ino == Mark(entries, mark, k) <==> entries[k].ino == Mark(entries, mark, |entries|))
  }

  ghost predicate Orderly(views: seq<View>, marks: seq<nat>) {
    && |views| == |marks|
    && forall v :: 0 <= v < |views| ==> Sane(views[v].entries) && MarkFirst(views[v].entries, marks[v])
  }

  ghost predicate Once(out: seq<Entry>) {
    forall i, j :: 0 <= i < j < |out| ==> out[i].name != out[j].name
  }

  ghost predicate ListedAs(views: seq<View>, marks: seq<nat>, boundary: bool, v: nat, j: nat, name: string) {
    v < |views| == |marks| && j < |views[v].entries| && views[v].entries[j].name == name
    && Listed(views, marks, boundary, v, j)
  }

  /** One of the first k entries of view v has the name and is listed. */
  ghost predicate Shows(views: seq<View>, marks: seq<nat>, boundary: bool, v: nat, k: nat, name: string) {
    exists j: nat :: j < k && ListedAs(views, marks, boundary, v, j, name)
  }

  /** What is returned of a view are the names of its entries that are listed, each once. */
  lemma {:induction false} PartNames(views: seq<View>, marks: seq<nat>, boundary: bool, v: nat, k: nat)
    requires v < |views| == |marks| && k <= |views[v].entries| && Sane(views[v].entries)
    ensures var p := Part(views, marks, boundary, v, k);
      Once(p) && forall name :: HasName(p, name) <==> Shows(views, marks, boundary, v, k, name)
  {
    if k > 0 {
      PartNames(views, marks, boundary, v, k - 1);
      var p0, p := Part(views, marks, boundary, v, k - 1), Part(views, marks, boundary, v, k);
      var e := views[v].entries[k - 1];
      assert p == if Listed(views, marks, boundary, v, k - 1) then p0 + [e] else p0;
      forall name ensures HasName(p, name) <==> Shows(views, marks, boundary, v, k, name) {
        ShowsMore(views, marks, boundary, v, k - 1, name);
        HasMore(p0, e, name);
      }
      assert !Shows(views, marks, boundary, v, k - 1, e.name);
      assert !HasName(p0, e.name);
      hide Listed, Shows;
      OnceMore(p0, e);
    }
  }

  lemma ShowsMore(views: seq<View>, marks: seq<nat>, boundary: bool, v: nat, k: nat, name: string)
    requires v < |views| == |marks| && k < |views[v].entries|
    ensures Shows(views, marks, boundary, v, k + 1, name) <==>
      Shows(views, marks, boundary, v, k, name) || ListedAs(views, marks, boundary, v, k, name)
  {
    hide ListedAs;
    if Shows(views, marks, boundary, v, k, name) {
      var j: nat :| j < k && ListedAs(views, marks, boundary, v, j, name);
      assert ListedAs(views, marks, boundary, v, j, name) && j < k + 1;
    }
  }

  lemma OnceMore(p: seq<Entry>, e: Entry)
    requires Once(p) && !HasName(p, e.name)
    ensures Once(p + [e])
  {
  }

  lemma OnceBoth(p: seq<Entry>, q: seq<Entry>)
    requires Once(p) && Once(q) && forall name :: HasName(q, name) ==> !HasName(p, name)
    ensures Once(p + q)
  {
    var r := p + q;
    forall i, j | 0 <= i < j < |r| ensures r[i].name != r[j].name {
      if i < |p| <= j {
        assert q[j - |p|] == r[j] && HasName(q, r[j].name);
        assert p[i] == r[i] && HasName(p, r[i].name);
      }
    }
  }

  lemma HasBoth(p: seq<Entry>, q: seq<Entry>, name: string)
    ensures HasName(p + q, name) <==> HasName(p, name) || HasName(q, name)
  {
    var r := p + q;
    if HasName(p, name) {
      var i :| 0 <= i < |p| && p[i].name == name;
      assert r[i].name == name;
    } else if HasName(q, name) {
      var i :| 0 <= i < |q| && q[i].name == name;
      assert r[|p| + i].name == name;
    }
  }

  /** One of the first n views lists the name. */
  ghost predicate ShowsUpto(views: seq<View>, marks: seq<nat>, n: nat, name: string) {
    exists v: nat :: v < n && ShowsAt(views, marks, v, name)
  }

  ghost predicate ShowsAt(views: seq<View>, marks: seq<nat>, v: nat, name: string) {
    v < |views| && Shows(views, marks, false, v, |views[v].entries|, name)
  }

  /** Without boundaries each name is returned once, from the view that lists it. */
  lemma {:induction false} ListingNames(views: seq<View>, marks: seq<nat>, n: nat)
    requires Orderly(views, marks) && n <= |views|
    ensures var out := Listing(views, marks, false, n);
      Once(out) && forall name :: HasName(out, name) <==> ShowsUpto(views, marks, n, name)
  {
    if n > 0 {
      var u: nat := n - 1;
      ListingNames(views, marks, u);
      var m := |views[u].entries|;
      PartNames(views, marks, false, u, m);
      var p, q := Listing(views, marks, false, u), Part(views, marks, false, u, m);
      forall name ensures HasName(p + q, name) <==> ShowsUpto(views, marks, n, name) {
        HasBoth(p, q, name);
        UptoMore(views, marks, u, name);
      }
      forall name | ShowsUpto(views, marks, u, name) ensures Covered(views, u, name) {
        var v: nat :| v < u && ShowsAt(views, marks, v, name);
        ShownUncovered(views, marks, v, name);
      }
      forall name | ShowsAt(views, marks, u, name) ensures !Covered(views, u, name) {
        ShownUncovered(views, marks, u, name);
      }
      hide Once, Listed, Shows, ShowsUpto;
      OnceBoth(p, q);
    }
  }

  lemma UptoMore(views: seq<View>, marks: seq<nat>, n: nat, name: string)
    ensures ShowsUpto(views, marks, n + 1, name) <==> ShowsUpto(views, marks, n, name) || ShowsAt(views, marks, n, name)
  {
    hide ShowsAt;
    if ShowsUpto(views, marks, n, name) {
      var v: nat :| v < n && ShowsAt(views, marks, v, name);
      assert v < n + 1 && ShowsAt(views, marks, v, name);
    }
  }

  /** A name that a view lists is in it, and in no view before it. */
  lemma ShownUncovered(views: seq<View>, marks: seq<nat>, n: nat, name: string)
    requires ShowsAt(views, marks, n, name)
    ensures HasName(views[n].entries, name) && !Covered(views, n, name)
  {
    var j: nat :| j < |views[n].entries| && ListedAs(views, marks, false, n, j, name);
  }

  // Views and levels.

  ghost predicate ViewAt(fs: Files, chain: seq<string>, views: seq<View>, v: nat, k: nat) {
    && v < |views| && k < |chain| && views[v].level == k && views[v].dir == chain[k]
    && fs.list(chain[k]) == Some(views[v].entries)
  }

  /** The views are the levels at which there is a directory, in order. */
  lemma {:induction false} Levels(fs: Files, chain: seq<string>)
    ensures var views := Opened(fs, chain);
      && (forall v :: 0 <= v < |views| ==> ViewAt(fs, chain, views, v, views[v].level))
      && (forall u, v :: 0 <= u < v < |views| ==> views[u].level < views[v].level)
      && forall k :: 0 <= k < |chain| && fs.list(chain[k]).Some? ==> exists v: nat :: ViewAt(fs, chain, views, v, k)
  {
    if chain != [] {
      var n := |chain| - 1;
      Levels(fs, chain[..n]);
      var old_, views := Opened(fs, chain[..n]), Opened(fs, chain);
      assert chain == chain[..n] + [chain[n]];
      OpenedMore(fs, chain[..n], chain[n]);
      assert old_ <= views;
      forall v | 0 <= v < |views| ensures ViewAt(fs, chain, views, v, views[v].level) {
        if v < |old_| {
          assert ViewAt(fs, chain[..n], old_, v, old_[v].level) && views[v] == old_[v];
        }
      }
      forall k | 0 <= k < |chain| && fs.list(chain[k]).Some? ensures exists v: nat :: ViewAt(fs, chain, views, v, k) {
        if k < n {
          var v: nat :| ViewAt(fs, chain[..n], old_, v, k);
          assert ViewAt(fs, chain, views, v, k);
        } else {
          assert ViewAt(fs, chain, views, |old_|, k);
        }
      }
    }
  }

  /** There is a directory at level k and it has the name. */
  ghost predicate HasAt(fs: Files, chain: seq<string>, k: nat, name: string) {
    k < |chain| && fs.list(chain[k]).Some? && HasName(fs.list(chain[k]).value, name)
  }

  /** Level k is the first that has the name. */
  ghost predicate FirstAt(fs: Files, chain: seq<string>, k: nat, name: string) {
    HasAt(fs, chain, k, name) && forall j: nat :: j < k ==> !HasAt(fs, chain, j, name)
  }

  /** The name is removed in the directory: its inode is the mark of it. */
  ghost predicate Removed(fs: Files, dir: string, name: string)
    requires fs.list(dir).Some?
  {
    MarkedName(fs.list(dir).value, InodeOr0(fs.ino(dir + OPAQUE)), name)
  }

  ghost predicate MarkedName(entries: seq<Entry>, mark: nat, name: string) {
    exists i :: 0 <= i < |entries| && entries[i].name == name && entries[i].ino == Mark(entries, mark, |entries|)
  }

  /** The first view that has a name lists it, unless it is removed there. */
  lemma ShownIf(views: seq<View>, marks: seq<nat>, v: nat, name: string)
    requires Orderly(views, marks) && v < |views| && !("..." <= name)
    ensures ShowsAt(views, marks, v, name) <==>
      HasName(views[v].entries, name) && !Covered(views, v, name) && !MarkedName(views[v].entries, marks[v], name)
  {
    var es := views[v].entries;
    if HasName(es, name) {
      var i :| 0 <= i < |es| && es[i].name == name;
      assert ListedAs(views, marks, false, v, i, name) <==>
        !Covered(views, v, name) && es[i].ino != Mark(es, marks[v], |es|);
    }
  }

  /** A view covers a name exactly if an earlier level has it. */
  lemma CoveredLevels(fs: Files, chain: seq<string>, views: seq<View>, v: nat, k: nat, name: string)
    requires views == Opened(fs, chain) && ViewAt(fs, chain, views, v, k)
    ensures Covered(views, v, name) <==> exists j: nat :: j < k && HasAt(fs, chain, j, name)
  {
    Levels(fs, chain);
    if Covered(views, v, name) {
      var u :| 0 <= u < v && HasName(views[u].entries, name);
      assert ViewAt(fs, chain, views, u, views[u].level) && HasAt(fs, chain, views[u].level, name);
    }
    if j: nat :| j < k && HasAt(fs, chain, j, name) {
      var u: nat :| ViewAt(fs, chain, views, u, j);
      assert u < v && HasName(views[u].entries, name);
    }
  }

  /** A name is listed exactly if the first level that has it does not have it removed. */
  lemma ListedLevels(fs: Files, chain: seq<string>, views: seq<View>, marks: seq<nat>, name: string)
    requires views == Opened(fs, chain) && MarksOf(fs, views, marks) && Orderly(views, marks) && !("..." <= name)
    ensures ShowsUpto(views, marks, |views|, name) <==>
      exists k: nat :: FirstAt(fs, chain, k, name) && !Removed(fs, chain[k], name)
  {
    Levels(fs, chain);
    if ShowsUpto(views, marks, |views|, name) {
      var v: nat :| v < |views| && ShowsAt(views, marks, v, name);
      var k := views[v].level;
      assert ViewAt(fs, chain, views, v, k);
      ShownIf(views, marks, v, name);
      CoveredLevels(fs, chain, views, v, k, name);
      assert FirstAt(fs, chain, k, name) && !Removed(fs, chain[k], name);
    }
    if k: nat :| FirstAt(fs, chain, k, name) && !Removed(fs, chain[k], name) {
      var v: nat :| ViewAt(fs, chain, views, v, k);
      ShownIf(views, marks, v, name);
      CoveredLevels(fs, chain, views, v, k, name);
      assert ShowsAt(views, marks, v, name);
    }
  }

  // The chain of a directory and the chain of a name in it.

  /** The path of a directory as it is opened. */
  predicate IsDirPath(d: string) {
    |d| >= 2 && d[|d| - 2] == '/' && d[|d| - 1] == '.'
  }

  /** The path of a name in the directory. */
  function In(d: string, name: string): string
    requires IsDirPath(d)
  {
    d[..|d| - 1] + name
  }

  /** A single component of a path. */
  predicate IsName(name: string) {
    name != "" && '/' !in name
  }

  /** No key of the table is one of the paths, whole. */
  ghost predicate NoWhole(s: seq<Map>, chain: seq<string>) {
    forall i, k :: 0 <= i < |s| && 0 <= k < |chain| ==> s[i].key != chain[k]
  }

  /** But for whole paths, the same keys lead to a directory and to the names in it. */
  lemma SameLeads(key: string, d: string, name: string)
    requires IsDirPath(d) && IsName(name) && key != d && key != In(d, name)
    ensures Leads(key, d) <==> Leads(key, In(d, name))
    ensures Leads(key, d) ==> |key| <= |d| - 2
  {
    var b := In(d, name);
    assert forall i {:trigger b[i]} :: |d| - 1 <= i < |b| ==> b[i] == name[i - (|d| - 1)] && b[i] != '/';
    if Leads(key, b) {
      assert b[|key|] == '/';
      assert b[..|key|] == d[..|key|];
    }
    if Leads(key, d) {
      assert d[|key|] == '/';
      assert b[..|key|] == d[..|key|];
    }
  }

  /** The next view of a name is the name in the next view of the directory. */
  lemma SameNext(d: string, name: string, n: nat, v: string)
    requires IsDirPath(d) && n <= |d| - 2
    ensures IsDirPath(Replaced(d, n, v))
    ensures Replaced(In(d, name), n, v) == In(Replaced(d, n, v), name)
  {
    var r := Replaced(d, n, v);
    assert In(d, name)[n..] == d[n..|d| - 1] + name;
    assert r[..|r| - 1] == v + d[n..|d| - 1];
  }

  /** There is one longest key at most. */
  lemma OneLongest(s: seq<Map>, path: string, visits: set<nat>, q: int, r: int)
    requires Ascends(s) && LongestOf(s, path, visits, q) && LongestOf(s, path, visits, r)
    ensures q == r
  {
    if q >= 0 && r >= 0 {
      assert s[q].key == path[..|s[q].key|] == path[..|s[r].key|] == s[r].key;
      Names.NotLess(s[q].key);
    }
  }

  lemma SameLongest(s: seq<Map>, d: string, name: string, visits: set<nat>, r: int)
    requires IsDirPath(d) && IsName(name) && LongestOf(s, In(d, name), visits, r)
    requires forall i :: 0 <= i < |s| ==> s[i].key != d && s[i].key != In(d, name)
    ensures LongestOf(s, d, visits, r)
  {
    forall i | 0 <= i < |s| ensures Leads(s[i].key, d) <==> Leads(s[i].key, In(d, name)) {
      SameLeads(s[i].key, d, name);
    }
  }

  lemma LengthOf(s: seq<Map>, chain: seq<string>, picks: seq<nat>)
    requires IsChain(s, chain, picks)
    ensures |chain| == |picks| + 1
  {
  }

  lemma LinkAt(s: seq<Map>, chain: seq<string>, picks: seq<nat>, k: nat)
    requires IsChain(s, chain, picks) && k < |picks|
    ensures |chain| == |picks| + 1 && picks[k] < |s| && LongestOf(s, chain[k], Taken(picks[..k]), picks[k])
    ensures Leads(s[picks[k]].key, chain[k])
    ensures chain[k + 1] == Replaced(chain[k], |s[picks[k]].key|, s[picks[k]].val)
  {
  }

  lemma NoWholeAt(s: seq<Map>, chain: seq<string>, k: nat)
    requires NoWhole(s, chain) && k < |chain|
    ensures forall i :: 0 <= i < |s| ==> s[i].key != chain[k]
  {
  }

  /** As far as both go, the chains of a directory and of a name in it go by the same entries. */
  lemma {:induction false} Aligned(s: seq<Map>, dirs: seq<string>, dpicks: seq<nat>, chain: seq<string>,
                                   picks: seq<nat>, name: string, k: nat)
    requires Ascends(s) && IsChain(s, dirs, dpicks) && IsChain(s, chain, picks) && IsName(name)
    requires IsDirPath(dirs[0]) && chain[0] == In(dirs[0], name)
    requires NoWhole(s, dirs) && NoWhole(s, chain) && k <= |picks| && k <= |dpicks|
    ensures picks[..k] == dpicks[..k] && IsDirPath(dirs[k]) && chain[k] == In(dirs[k], name)
  {
    hide IsChain, NoWhole, LongestOf, Leads, Ascends, IsDirPath, In, Taken;
    LengthOf(s, dirs, dpicks);
    LengthOf(s, chain, picks);
    if k > 0 {
      var j := k - 1;
      LinkAt(s, dirs, dpicks, j);
      LinkAt(s, chain, picks, j);
      NoWholeAt(s, dirs, j);
      NoWholeAt(s, chain, j);
      Aligned(s, dirs, dpicks, chain, picks, name, j);
      var i := picks[j];
      AlignedStep(s, dirs[j], name, Taken(picks[..j]), i, dpicks[j]);
      assert picks[..k] == picks[..j] + [i] && dpicks[..k] == dpicks[..j] + [i];
    }
  }

  /** From a directory and from a name in it the same entry leads on. */
  lemma AlignedStep(s: seq<Map>, d: string, name: string, visits: set<nat>, i: nat, j: nat)
    requires Ascends(s) && IsDirPath(d) && IsName(name)
    requires LongestOf(s, In(d, name), visits, i) && LongestOf(s, d, visits, j)
    requires forall k :: 0 <= k < |s| ==> s[k].key != d && s[k].key != In(d, name)
    ensures i == j && Leads(s[i].key, d) && IsDirPath(Replaced(d, |s[i].key|, s[i].val))
    ensures Leads(s[i].key, In(d, name))
    ensures Replaced(In(d, name), |s[i].key|, s[i].val) == In(Replaced(d, |s[i].key|, s[i].val), name)
  {
    SameLongest(s, d, name, visits, i);
    OneLongest(s, d, visits, i, j);
    SameLeads(s[i].key, d, name);
    SameNext(d, name, |s[i].key|, s[i].val);
  }

  // What lstat says of a directory.

  /** lstat finds a name in a directory exactly if it is listed, and then the file with that inode. */
  ghost predicate EntryStat(fs: Files, lstat: string -> Stat, d: string, name: string)
    requires IsDirPath(d)
  {
    if fs.list(d).Some? && HasName(fs.list(d).value, name) then
      && lstat(In(d, name)).Exists?
      && forall i :: 0 <= i < |fs.list(d).value| && fs.list(d).value[i].name == name ==>
           lstat(In(d, name)).node.id == fs.list(d).value[i].ino
    else lstat(In(d, name)) == NoEntry
  }

  /** A file that is the mark of its directory by another name has two links at least, and its permissions. */
  ghost predicate LinkStat(lstat: string -> Stat, d: string, name: string)
    requires IsDirPath(d)
  {
    var mark, st := MarkOf(lstat, In(d, "")), lstat(In(d, name));
    name != OLD_MARK && st.Exists? && mark.Exists? && mark.node.id == st.node.id ==>
      st.node.links > 1 && st.node == mark.node
  }

  function IdOf(st: Stat): Option<nat> {
    if st.Exists? then Some(st.node.id) else None
  }

  /** What holds of the directories of any file system. */
  ghost predicate Lawful(fs: Files, lstat: string -> Stat, d: string)
    requires IsDirPath(d)
  {
    && (forall name :: IsName(name) ==> EntryStat(fs, lstat, d, name) && LinkStat(lstat, d, name))
    && IdOf(lstat(In(d, MARK))) == fs.ino(d + OPAQUE) && fs.ino(d + OPAQUE) != Some(0)
  }

  ghost predicate LawfulAll(fs: Files, lstat: string -> Stat, dirs: seq<string>) {
    forall k :: 0 <= k < |dirs| && IsDirPath(dirs[k]) ==> Lawful(fs, lstat, dirs[k])
  }

  /** The mark of the directory, if there is one, has no permission bits. */
  predicate BareMark(lstat: string -> Stat, d: string)
    requires IsDirPath(d)
  {
    MarkOf(lstat, In(d, "")).Exists? ==> MarkOf(lstat, In(d, "")).node.perm == 0
  }

  lemma {:induction false} DirPartIn(dir: string, name: string)
    requires dir != "" && dir[|dir| - 1] == '/' && '/' !in name
    ensures DirPart(dir + name) == dir
    decreases |name|
  {
    if name == "" {
      assert dir + name == dir;
    } else {
      var u := dir + name;
      assert u[..|u| - 1] == dir + name[..|name| - 1] && u[|u| - 1] == name[|name| - 1];
      DirPartIn(dir, name[..|name| - 1]);
    }
  }

  /** The inode of the old mark, if none is of the new. */
  lemma {:induction false} OldMark(entries: seq<Entry>, k: nat)
    requires k <= |entries| && Sane(entries)
    ensures Mark(entries, 0, k) == 0 <==> forall i :: 0 <= i < k ==> entries[i].name != OLD_MARK
    ensures forall i :: 0 <= i < k && entries[i].name == OLD_MARK ==> Mark(entries, 0, k) == entries[i].ino
  {
    if k > 0 {
      OldMark(entries, k - 1);
    }
  }

  /** The mark that the listing goes by is the one that the lookup goes by. */
  lemma SameMark(fs: Files, lstat: string -> Stat, d: string)
    requires IsDirPath(d) && Lawful(fs, lstat, d) && fs.list(d).Some? && Sane(fs.list(d).value)
    ensures var es, mark := fs.list(d).value, MarkOf(lstat, In(d, ""));
      Mark(es, InodeOr0(fs.ino(d + OPAQUE)), |es|) == if mark.Exists? then mark.node.id else 0
    ensures In(d, "") + MARK == In(d, MARK) && In(d, "") + OLD_MARK == In(d, OLD_MARK)
  {
    var es := fs.list(d).value;
    assert In(d, "") + MARK == In(d, MARK) && In(d, "") + OLD_MARK == In(d, OLD_MARK);
    assert IsName(OLD_MARK);
    assert EntryStat(fs, lstat, d, OLD_MARK);
    OldMark(es, |es|);
  }

  /** A name is opaque to the lookup exactly if it is removed in the listing and the mark has no permissions. */
  lemma OpaqueIff(fs: Files, lstat: string -> Stat, d: string, name: string)
    requires IsDirPath(d) && IsName(name) && !("..." <= name) && Lawful(fs, lstat, d)
    requires fs.list(d).Some? && Sane(fs.list(d).value) && HasName(fs.list(d).value, name)
    ensures lstat(In(d, name)).Exists?
    ensures Opaque(lstat, In(d, name), lstat(In(d, name)).node) <==> Removed(fs, d, name) && BareMark(lstat, d)
  {
    SameMark(fs, lstat, d);
    assert EntryStat(fs, lstat, d, name) && LinkStat(lstat, d, name);
    var es := fs.list(d).value;
    var i :| 0 <= i < |es| && es[i].name == name;
    assert In(d, name) == In(d, "") + name && In(d, "")[|d| - 2] == '/';
    DirPartIn(In(d, ""), name);
    assert Removed(fs, d, name) <==> es[i].ino == Mark(es, InodeOr0(fs.ino(d + OPAQUE)), |es|);
  }

  /** A mark with a permission bit: the name x is removed in the listing of /a, but found. */
  lemma MarkWithMode() returns (fs: Files, lstat: string -> Stat)
    ensures Lawful(fs, lstat, "/a/.") && fs.list("/a/.").Some? && Sane(fs.list("/a/.").value)
    ensures HasName(fs.list("/a/.").value, "x") && Removed(fs, "/a/.", "x") && Found(lstat, In("/a/.", "x"))
  {
    var es := [Entry("...", 5), Entry("x", 7)];
    var mark := Node(7, 2, 1);
    fs := Files(p => if p == "/a/." then Some(es) else None, p => if p == "/a/./.../..." then Some(7) else None);
    lstat := p =>
      if p == "/a/x" || p == "/a/.../..." then Exists(mark) else if p == "/a/..." then Exists(Node(5, 2, 7))
        else NoEntry;
    assert es[1].name == "x" && es[0].name == "...";
    forall name | IsName(name) ensures EntryStat(fs, lstat, "/a/.", name) && LinkStat(lstat, "/a/.", name) {
      var p := In("/a/.", name);
      assert p[3..] == name && "/a/x"[3..] == "x" && "/a/..."[3..] == "..." && "/a/.../..."[3..] == ".../...";
      assert ".../..."[3] == '/';
    }
    assert In("/a/.", "") == "/a/" && In("/a/.", MARK) == "/a/.../..." && In("/a/.", "x") == "/a/x";
    assert "/a/." + OPAQUE == "/a/./.../...";
    assert Mark(es, 7, 2) == 7;
  }

  /** The descent found no path and there is no next. */
  ghost predicate Exhausted(s: seq<Map>, lstat: string -> Stat, chain: seq<string>, picks: seq<nat>, limit: nat)
    requires |chain| == |picks| + 1
  {
    lstat(chain[|picks|]) == NoEntry ==> |picks| + 1 >= limit || LongestOf(s, chain[|picks|], Taken(picks), -1)
  }

  /** The descent goes no further down than the directory stream, and as far if it finds nothing. */
  lemma SameDepth(s: seq<Map>, dirs: seq<string>, dpicks: seq<nat>, chain: seq<string>, picks: seq<nat>,
                  lstat: string -> Stat, name: string, limit: nat)
    requires Ascends(s) && IsChain(s, dirs, dpicks) && IsChain(s, chain, picks) && IsName(name)
    requires IsDirPath(dirs[0]) && chain[0] == In(dirs[0], name) && NoWhole(s, dirs) && NoWhole(s, chain)
    requires Ended(s, dirs, dpicks, limit) && (|picks| > 0 ==> |picks| < limit)
      && Exhausted(s, lstat, chain, picks, limit)
    ensures |picks| <= |dpicks|
    ensures lstat(chain[|picks|]) == NoEntry ==> |picks| == |dpicks|
  {
    var m, n := |picks|, |dpicks|;
    assert picks[..m] == picks && dpicks[..n] == dpicks;
    if m > n {
      Aligned(s, dirs, dpicks, chain, picks, name, n);
      SameLongest(s, dirs[n], name, Taken(picks[..n]), picks[n]);
    } else if m < n && lstat(chain[m]) == NoEntry {
      Aligned(s, dirs, dpicks, chain, picks, name, m);
      SameLongest(s, dirs[m], name, Taken(picks), -1);
    }
  }

  /** The name is there, at the end of the descent, and removed. */
  ghost predicate RemovedAt(fs: Files, lstat: string -> Stat, d: string, path: string, name: string) {
    lstat(path).Exists? && fs.list(d).Some? && Removed(fs, d, name)
  }

  /**
   The union listing against lookup: the stream, read to its end, returns each name once, and a name exactly
   if the descent finds it in its directory and it is not removed there. This is what lookup says too, but
   for one case: a mark with permission bits removes a name from the listing only.
   */
  lemma ListedIffFound(s: seq<Map>, dirs: seq<string>, dpicks: seq<nat>, views: seq<View>, marks: seq<nat>, fs: Files,
                       chain: seq<string>, picks: seq<nat>, lstat: string -> Stat, name: string, limit: nat)
    requires Ascends(s) && IsChain(s, dirs, dpicks) && IsDirPath(dirs[0]) && Ended(s, dirs, dpicks, limit)
    requires views == Opened(fs, dirs) && MarksOf(fs, views, marks) && Orderly(views, marks)
    requires IsName(name) && !("..." <= name) && LawfulAll(fs, lstat, dirs)
    requires IsChain(s, chain, picks) && chain[0] == In(dirs[0], name) && Missing(lstat, chain, |picks|)
    requires (|picks| > 0 ==> |picks| < limit) && Exhausted(s, lstat, chain, picks, limit)
    requires NoWhole(s, dirs) && NoWhole(s, chain)
    ensures Once(Listing(views, marks, false, |views|)) && |picks| < |dirs| && IsDirPath(dirs[|picks|])
    ensures var path, d := chain[|picks|], dirs[|picks|];
      && (HasName(Listing(views, marks, false, |views|), name) <==>
            lstat(path).Exists? && !RemovedAt(fs, lstat, d, path, name))
      && ((HasName(Listing(views, marks, false, |views|), name) <==> Found(lstat, path)) <==>
            (RemovedAt(fs, lstat, d, path, name) ==> BareMark(lstat, d)))
  {
    ListingNames(views, marks, |views|);
    ListedLevels(fs, dirs, views, marks, name);
    SameDepth(s, dirs, dpicks, chain, picks, lstat, name, limit);
    LengthOf(s, dirs, dpicks);
    var m := |picks|;
    forall k: nat | k <= m ensures IsDirPath(dirs[k]) && chain[k] == In(dirs[k], name) {
      Aligned(s, dirs, dpicks, chain, picks, name, k);
    }
    forall k: nat | k < |dirs| && IsDirPath(dirs[k])
      ensures EntryStat(fs, lstat, dirs[k], name)
    {
      assert Lawful(fs, lstat, dirs[k]);
    }
    if HasAt(fs, dirs, m, name) {
      SaneAt(fs, dirs, views, marks, m);
      OpaqueIff(fs, lstat, dirs[m], name);
    }
    hide IsChain, Orderly, Listing, Once, Opened, MarksOf, NoWhole, ShowsUpto, Removed, IsDirPath, In, Opaque, BareMark,
      LawfulAll;
    forall j: nat | j < m ensures !HasAt(fs, dirs, j, name) {
      assert lstat(chain[j]) == NoEntry;
    }
  }

  lemma SaneAt(fs: Files, dirs: seq<string>, views: seq<View>, marks: seq<nat>, k: nat)
    requires views == Opened(fs, dirs) && Orderly(views, marks) && k < |dirs| && fs.list(dirs[k]).Some?
    ensures Sane(fs.list(dirs[k]).value)
  {
    Levels(fs, dirs);
    var v: nat :| ViewAt(fs, dirs, views, v, k);
  }

  ghost predicate OrderlyDir(fs: Files, d: string) {
    fs.list(d).Some? ==> Sane(fs.list(d).value) && MarkFirst(fs.list(d).value, InodeOr0(fs.ino(d + OPAQUE)))
  }

  /** What is asked of the views of a directory: no key of the table is the path of one of them,
      whole, they are orderly, and lstat and their listings are those of a file system. */
  ghost predicate DirsOk(s: seq<Map>, fs: Files, lstat: string -> Stat, dirs: seq<string>) {
    NoWhole(s, dirs) && LawfulAll(fs, lstat, dirs) && forall k :: 0 <= k < |dirs| ==> OrderlyDir(fs, dirs[k])
  }

  lemma OrderlyViews(fs: Files, dirs: seq<string>, views: seq<View>, marks: seq<nat>)
    requires views == Opened(fs, dirs) && MarksOf(fs, views, marks)
    requires forall k :: 0 <= k < |dirs| ==> OrderlyDir(fs, dirs[k])
    ensures Orderly(views, marks)
  {
    Levels(fs, dirs);
    forall v | 0 <= v < |views| ensures Sane(views[v].entries) && MarkFirst(views[v].entries, marks[v]) {
      assert ViewAt(fs, dirs, views, v, views[v].level);
      assert OrderlyDir(fs, dirs[views[v].level]);
    }
  }

  /** A directory is listed, and a name in it is looked up; the lookup ends in the directory at. */
  method ListAndFind(st: Stream, buf: array<char>, buf2: array<char>, t: Table, limit: nat, lstat: string -> Stat,
                     ghost dir: string, ghost name: string)
    returns (listed: seq<Entry>, found: bool, ghost at: string)
    requires t.Valid() && forall i :: 0 <= i < |t.Live()| ==> NoNul(t.Live()[i].val)
    requires buf != buf2 && IsDirPath(dir) && IsStr(buf[..], 0, dir) && |dir| + Left(t.Live(), {}) < buf.Length
    requires IsName(name) && !("..." <= name) && IsStr(buf2[..], 0, In(dir, name))
    requires |In(dir, name)| + Left(t.Live(), {}) + 8 <= buf2.Length
    requires !st.boundary && st.fs.list(dir).Some?
    requires forall dirs, picks :: IsChain(t.Live(), dirs, picks) && dirs[0] == dir ==>
      DirsOk(t.Live(), st.fs, lstat, dirs)
    requires forall chain, picks :: IsChain(t.Live(), chain, picks) && chain[0] == In(dir, name) ==>
      NoWhole(t.Live(), chain)
    modifies st, buf, buf2
    ensures Once(listed) && IsDirPath(at) && NoneHidden(listed)
    ensures HasName(listed, name) <==> lstat(In(at, name)).Exists? && !RemovedAt(st.fs, lstat, at, In(at, name), name)
    ensures (HasName(listed, name) <==> found) <==>
      (RemovedAt(st.fs, lstat, at, In(at, name), name) ==> BareMark(lstat, at))
  {
    hide Left, LeftOf, IsStr, DirsOk, NoWhole, Opened, MarksOf, Orderly, Listing, Given, Ok, RemovedAt, BareMark,
      PathReal.Found;
    ghost var s := t.Live();
    assert Ascends(s);
    var ok;
    ghost var dirs, dpicks;
    ok, dirs, dpicks := st.Open(buf, t, limit, dir);
    listed := st.ReadAll();
    var level;
    ghost var chain, picks;
    found, level, chain, picks := Descend(buf2, t, limit, lstat, In(dir, name));
    Allowed(s, st.fs, lstat, dirs, st.views, st.marks);
    ListedIffFound(s, dirs, dpicks, st.views, st.marks, st.fs, chain, picks, lstat, name, limit);
    at := dirs[level];
    Aligned(s, dirs, dpicks, chain, picks, name, level);
  }

  lemma Allowed(s: seq<Map>, fs: Files, lstat: string -> Stat, dirs: seq<string>, views: seq<View>, marks: seq<nat>)
    requires DirsOk(s, fs, lstat, dirs) && views == Opened(fs, dirs) && MarksOf(fs, views, marks)
    ensures NoWhole(s, dirs) && LawfulAll(fs, lstat, dirs) && Orderly(views, marks)
  {
    OrderlyViews(fs, dirs, views, marks);
  }
}
