/**
 The top-down splay of a search (src/cmd/INIT/mamake.c:484-563): the way down, which takes
 the tree apart around the name, and the reassembly.
 */
module SplaySearch {
  import opened Names
  import opened ItemStore

  /** Names strictly ascend. */
  ghost predicate Ascends(m: Store, s: seq<Address>) {
    && (forall i :: 0 <= i < |s| ==> s[i] in m)
    && forall i, j :: 0 <= i < j < |s| ==> Less(m[s[i]].name, m[s[j]].name)
  }

  ghost predicate Below(m: Store, s: seq<Address>, name: string) {
    forall i :: 0 <= i < |s| ==> s[i] in m && Less(m[s[i]].name, name)
  }

  ghost predicate Above(m: Store, s: seq<Address>, name: string) {
    forall i :: 0 <= i < |s| ==> s[i] in m && Less(name, m[s[i]].name)
  }

  /** What is right of an item that is above the name is above it too. */
  lemma AboveRight(m: Store, a: seq<Address>, x: Address, b: seq<Address>, name: string)
    requires Ascends(m, a + [x] + b) && x in m && Less(name, m[x].name)
    ensures Above(m, [x] + b, name)
  {
    var s := a + [x] + b;
    forall i | 0 <= i < |b|
      ensures b[i] in m && Less(name, m[b[i]].name)
    {
      assert s[|a| + 1 + i] == b[i];
      LessTrans(name, m[s[|a|]].name, m[s[|a| + 1 + i]].name);
    }
  }

  lemma BelowLeft(m: Store, a: seq<Address>, x: Address, b: seq<Address>, name: string)
    requires Ascends(m, a + [x] + b) && x in m && Less(m[x].name, name)
    ensures Below(m, a + [x], name)
  {
    var s := a + [x] + b;
    forall i | 0 <= i < |a|
      ensures a[i] in m && Less(m[a[i]].name, name)
    {
      assert s[i] == a[i];
      LessTrans(m[s[i]].name, m[s[|a|]].name, name);
    }
  }

  lemma AscendsPart(m: Store, a: seq<Address>, b: seq<Address>, c: seq<Address>)
    requires Ascends(m, a + b + c)
    ensures Ascends(m, b)
  {
    var s := a + b + c;
    assert forall i :: 0 <= i < |b| ==> b[i] == s[|a| + i];
  }

  /** The three trees of a search in progress. */
  datatype Split = Split(root: Address, left: Address, right: Address, lroot: Address, rroot: Address)

  datatype Trees = Trees(l: Tree, m: Tree, r: Tree)

  ghost predicate Shapes(m: Store, p: Split, t: Trees) {
    && Linked(m, p.root, t.m) && Linked(m, p.lroot, t.l) && Linked(m, p.rroot, t.r)
    && AtRight(p.left, t.l) && AtLeft(p.right, t.r)
    && Nodes(t.l) !! Nodes(t.m) && Nodes(t.l) !! Nodes(t.r) && Nodes(t.m) !! Nodes(t.r)
  }

  /** Together they are the tree t0, in the same order, cut around the name. */
  ghost predicate Covers(m0: Store, t: Trees, t0: Tree, name: string) {
    && InOrder(t.l) + InOrder(t.m) + InOrder(t.r) == InOrder(t0)
    && Nodes(t.l) + Nodes(t.m) + Nodes(t.r) == Nodes(t0)
    && Below(m0, InOrder(t.l), name) && Above(m0, InOrder(t.r), name)
  }

  /** Only links of the tree t0 have changed. */
  ghost predicate Relinked(m0: Store, m: Store, t0: Tree) {
    m.Keys == m0.Keys && SameData(m0, m) && SameLinks(m0, m, m0.Keys - Nodes(t0))
  }

  lemma TreeParts(t: Tree)
    requires t.Node?
    ensures InOrder(t) == InOrder(t.l) + [t.x] + InOrder(t.r) && Nodes(t) == Nodes(t.l) + {t.x} + Nodes(t.r)
  {
  }

  lemma AboveBoth(m: Store, a: seq<Address>, b: seq<Address>, name: string)
    requires Above(m, a, name) && Above(m, b, name)
    ensures Above(m, a + b, name)
  {
    hide Less;
  }

  lemma BelowBoth(m: Store, a: seq<Address>, b: seq<Address>, name: string)
    requires Below(m, a, name) && Below(m, b, name)
    ensures Below(m, a + b, name)
  {
    hide Less;
  }

  lemma CoversLeft(m0: Store, t: Trees, tr: Tree, t0: Tree, name: string)
    requires Covers(m0, t, t0, name) && t.m.Node? && Ascends(m0, InOrder(t0))
    requires t.m.x in m0 && Less(name, m0[t.m.x].name)
    requires Nodes(tr) == Nodes(t.r) + {t.m.x} + Nodes(t.m.r) && InOrder(tr) == [t.m.x] + InOrder(t.m.r) + InOrder(t.r)
    ensures Covers(m0, Trees(t.l, t.m.l, tr), t0, name)
  {
    hide Less, InOrder, Nodes, Ascends, Above, Below;
    var x, l, r := t.m.x, InOrder(t.m.l), InOrder(t.m.r);
    TreeParts(t.m);
    AscendsPart(m0, InOrder(t.l), InOrder(t.m), InOrder(t.r));
    AboveRight(m0, l, x, r, name);
    AboveBoth(m0, [x] + r, InOrder(t.r), name);
    assert InOrder(t.l) + (l + [x] + r) + InOrder(t.r) == InOrder(t.l) + l + ([x] + r + InOrder(t.r));
  }

  lemma CoversRight(m0: Store, t: Trees, tl: Tree, t0: Tree, name: string)
    requires Covers(m0, t, t0, name) && t.m.Node? && Ascends(m0, InOrder(t0))
    requires t.m.x in m0 && Less(m0[t.m.x].name, name)
    requires Nodes(tl) == Nodes(t.l) + {t.m.x} + Nodes(t.m.l) && InOrder(tl) == InOrder(t.l) + InOrder(t.m.l) + [t.m.x]
    ensures Covers(m0, Trees(tl, t.m.r, t.r), t0, name)
  {
    hide Less, InOrder, Nodes, Ascends, Above, Below;
    var x, l, r := t.m.x, InOrder(t.m.l), InOrder(t.m.r);
    TreeParts(t.m);
    AscendsPart(m0, InOrder(t.l), InOrder(t.m), InOrder(t.r));
    BelowLeft(m0, l, x, r, name);
    BelowBoth(m0, InOrder(t.l), l + [x], name);
    assert InOrder(t.l) + l + [x] == InOrder(t.l) + (l + [x]);
    assert InOrder(t.l) + (l + [x] + r) + InOrder(t.r) == InOrder(t.l) + l + [x] + r + InOrder(t.r);
  }

  lemma CoversNodes(m0: Store, t: Trees, t0: Tree, name: string)
    requires Covers(m0, t, t0, name)
    ensures Nodes(t.l) + Nodes(t.m) + Nodes(t.r) == Nodes(t0)
  {
  }

  lemma Top(m: Store, p: Address, t: Tree)
    requires Linked(m, p, t) && t.Node?
    ensures p == t.x && p in m && Nodes(t) == Nodes(t.l) + {p} + Nodes(t.r)
    ensures p !in Nodes(t.l) && p !in Nodes(t.r) && Nodes(t.l) !! Nodes(t.r)
  {
  }

  /** The step to the left, over an item that is above the name. */
  method GoLeft(m: Store, p: Split, ghost t: Trees, ghost m0: Store, ghost t0: Tree, name: string)
    returns (m': Store, p': Split, ghost t': Trees)
    requires Shapes(m, p, t) && Covers(m0, t, t0, name) && Relinked(m0, m, t0) && Ascends(m0, InOrder(t0))
    requires p.root in m && Less(name, m[p.root].name) && t.m.Node?
    ensures Shapes(m', p', t') && Covers(m0, t', t0, name) && Relinked(m0, m', t0) && t'.m == t.m.l
  {
    hide Less, PutLeft, Covers, Linked, InOrder, Ascends, Nodes;
    CoversNodes(m0, t, t0, name);
    Top(m, p.root, t.m);
    var root', right', rroot';
    ghost var tr';
    m', root', right', rroot', tr' := HangRight(m, p.root, p.right, p.rroot, t.m, t.r);
    p' := p.(root := root', right := right', rroot := rroot');
    t' := Trees(t.l, t.m.l, tr');
    Frame(m, m', p.lroot, t.l);
    CoversLeft(m0, t, tr', t0, name);
  }

  method GoRight(m: Store, p: Split, ghost t: Trees, ghost m0: Store, ghost t0: Tree, name: string)
    returns (m': Store, p': Split, ghost t': Trees)
    requires Shapes(m, p, t) && Covers(m0, t, t0, name) && Relinked(m0, m, t0) && Ascends(m0, InOrder(t0))
    requires p.root in m && Less(m[p.root].name, name) && t.m.Node?
    ensures Shapes(m', p', t') && Covers(m0, t', t0, name) && Relinked(m0, m', t0) && t'.m == t.m.r
  {
    hide Less, PutRight, Covers, Linked, InOrder, Ascends, Nodes;
    CoversNodes(m0, t, t0, name);
    Top(m, p.root, t.m);
    var root', left', lroot';
    ghost var tl';
    m', root', left', lroot', tl' := HangLeft(m, p.root, p.left, p.lroot, t.m, t.l);
    p' := p.(root := root', left := left', lroot := lroot');
    t' := Trees(tl', t.m.r, t.r);
    Frame(m, m', p.rroot, t.r);
    CoversRight(m0, t, tl', t0, name);
  }

  /** A rotation at the root changes nothing else. */
  lemma Rotated(m: Store, m': Store, p: Split, root: Address, t: Trees, tm: Tree, m0: Store, t0: Tree, name: string)
    requires Shapes(m, p, t) && Covers(m0, t, t0, name) && Relinked(m0, m, t0)
    requires Linked(m', root, tm) && Nodes(tm) == Nodes(t.m) && InOrder(tm) == InOrder(t.m)
    requires m'.Keys == m.Keys && SameData(m, m') && SameLinks(m, m', m.Keys - Nodes(t.m))
    ensures Shapes(m', p.(root := root), t.(m := tm)) && Covers(m0, t.(m := tm), t0, name) && Relinked(m0, m', t0)
  {
    hide InOrder, Linked, Nodes;
    Frame(m, m', p.lroot, t.l);
    Frame(m, m', p.rroot, t.r);
  }

  /** The loop of search: down to the name or to where it would be. */
  method Descend(m0: Store, root: Address, name: string, ghost t0: Tree)
    returns (m: Store, p: Split, ghost t: Trees)
    requires Linked(m0, root, t0) && Ascends(m0, InOrder(t0))
    ensures Shapes(m, p, t) && Covers(m0, t, t0, name) && Relinked(m0, m, t0)
    ensures p.root != 0 ==> p.root in m && m[p.root].name == name
  {
    m, p, t := m0, Split(root, 0, 0, 0, 0), Trees(Leaf, t0, Leaf);
    while p.root != 0
      invariant Shapes(m, p, t) && Covers(m0, t, t0, name) && Relinked(m0, m, t0)
      decreases t.m
    {
      hide InOrder, Nodes, Covers, Relinked, Ascends, Compare, AtLeft, AtRight, SameData, SameLinks;
      assert t.m.Node?;
      Top(m, p.root, t.m);
      var cmp := Compare(name, m[p.root].name);
      CompareOrder(name, m[p.root].name);
      if cmp == 0 {
        break;
      } else if cmp < 0 {
        var l := m[p.root].left;
        if l != 0 {
          Top(m, l, t.m.l);
          cmp := Compare(name, m[l].name);
          CompareOrder(name, m[l].name);
          if cmp <= 0 {
            var root';
            ghost var tm, m1 := t.m, m;
            m, root', tm := RotateLeft(m, p.root, t.m);
            RotatedLeft(m1, m, p, root', t, tm, m0, t0, name);
            p, t := p.(root := root'), t.(m := tm);
            if cmp == 0 {
              break;
            }
          }
        }
        m, p, t := GoLeft(m, p, t, m0, t0, name);
      } else {
        var r := m[p.root].right;
        if r != 0 {
          Top(m, r, t.m.r);
          cmp := Compare(name, m[r].name);
          CompareOrder(name, m[r].name);
          if cmp >= 0 {
            var root';
            ghost var tm, m1 := t.m, m;
            m, root', tm := RotateRight(m, p.root, t.m);
            RotatedRight(m1, m, p, root', t, tm, m0, t0, name);
            p, t := p.(root := root'), t.(m := tm);
            if cmp == 0 {
              break;
            }
          }
        }
        m, p, t := GoRight(m, p, t, m0, t0, name);
      }
    }
  }

  lemma RotatedLeft(m: Store, m': Store, p: Split, root: Address, t: Trees, tm: Tree, m0: Store, t0: Tree, name: string)
    requires Shapes(m, p, t) && Covers(m0, t, t0, name) && Relinked(m0, m, t0) && t.m.Node? && t.m.l.Node?
    requires Linked(m', root, tm) && Nodes(tm) == Nodes(t.m) && InOrder(tm) == InOrder(t.m)
    requires m'.Keys == m.Keys && SameData(m, m') && SameLinks(m, m', m.Keys - {t.m.x, t.m.l.x})
    ensures Shapes(m', p.(root := root), t.(m := tm)) && Covers(m0, t.(m := tm), t0, name) && Relinked(m0, m', t0)
  {
    hide InOrder, Linked;
    assert t.m.x in Nodes(t.m) && t.m.l.x in Nodes(t.m.l);
    Rotated(m, m', p, root, t, tm, m0, t0, name);
  }

  lemma RotatedRight(m: Store, m': Store, p: Split, root: Address, t: Trees, tm: Tree, m0: Store, t0: Tree,
                     name: string)
    requires Shapes(m, p, t) && Covers(m0, t, t0, name) && Relinked(m0, m, t0) && t.m.Node? && t.m.r.Node?
    requires Linked(m', root, tm) && Nodes(tm) == Nodes(t.m) && InOrder(tm) == InOrder(t.m)
    requires m'.Keys == m.Keys && SameData(m, m') && SameLinks(m, m', m.Keys - {t.m.x, t.m.r.x})
    ensures Shapes(m', p.(root := root), t.(m := tm)) && Covers(m0, t.(m := tm), t0, name) && Relinked(m0, m', t0)
  {
    hide InOrder, Linked;
    assert t.m.x in Nodes(t.m) && t.m.r.x in Nodes(t.m.r);
    Rotated(m, m', p, root, t, tm, m0, t0, name);
  }

  // --------------------------------------------------------- putting it together

  /** The item found leaves its right side to the right tree. */
  method KeepRight(m: Store, p: Split, ghost t: Trees) returns (m': Store, rroot: Address)
    requires Shapes(m, p, t) && t.m.Node?
    ensures Linked(m', rroot, PutLeft(t.r, t.m.r)) && Linked(m', p.lroot, t.l)
    ensures p.root in m' && p.root in m && m'[p.root] == m[p.root] && Linked(m', m'[p.root].left, t.m.l)
    ensures m'.Keys == m.Keys && SameData(m, m') && SameLinks(m, m', m.Keys - Nodes(t.r))
  {
    hide PutLeft, InOrder, Nodes;
    Top(m, p.root, t.m);
    InStore(m, p.rroot, t.r);
    m', rroot := m, p.rroot;
    if p.right != 0 {
      m' := m'[p.right := m'[p.right].(left := m'[p.root].right)];
    } else {
      rroot := m'[p.root].right;
    }
    PutLeftLinks(m, m', p, t, rroot);
    Frame(m, m', p.lroot, t.l);
  }

  /** The item found leaves its left side to the left tree. */
  method KeepLeft(m: Store, p: Split, ghost t: Trees) returns (m': Store, lroot: Address)
    requires Linked(m, p.lroot, t.l) && AtRight(p.left, t.l) && t.m.Node? && p.root in m && Nodes(t.l) !! Nodes(t.m)
    requires Linked(m, m[p.root].left, t.m.l)
    ensures Linked(m', lroot, PutRight(t.l, t.m.l))
    ensures m'.Keys == m.Keys && SameData(m, m') && SameLinks(m, m', m.Keys - Nodes(t.l))
  {
    hide PutRight, InOrder;
    InStore(m, p.lroot, t.l);
    m', lroot := m, p.lroot;
    if p.left != 0 {
      m' := m'[p.left := m'[p.left].(right := m'[p.root].left)];
    } else {
      lroot := m'[p.root].left;
    }
    PutRightLinks(m, m', p, t, lroot);
  }

  /** The item found becomes the root, with the left and the right tree below it. */
  method Reassemble(m: Store, p: Split, ghost t: Trees)
    returns (m': Store, lroot: Address, rroot: Address, ghost l: Tree, ghost r: Tree)
    requires Shapes(m, p, t) && t.m.Node?
    ensures l == PutRight(t.l, t.m.l) && r == PutLeft(t.r, t.m.r)
    ensures Linked(m', lroot, l) && Linked(m', rroot, r)
    ensures m'.Keys == m.Keys && SameData(m, m')
  {
    hide PutLeft, PutRight, InOrder, Linked;
    Top(m, p.root, t.m);
    l, r := PutRight(t.l, t.m.l), PutLeft(t.r, t.m.r);
    m', rroot := KeepRight(m, p, t);
    ghost var m1 := m';
    m', lroot := KeepLeft(m', p, t);
    PutLeftFacts(t.r, t.m.r);
    Frame(m1, m', rroot, r);
  }

  lemma PutLeftLinks(m: Store, m': Store, p: Split, t: Trees, rroot: Address)
    requires Shapes(m, p, t) && t.m.Node? && m'.Keys == m.Keys && p.root in m
    requires if p.right != 0 then p.right in m && m' == m[p.right := m[p.right].(left := m[p.root].right)]
      && rroot == p.rroot
             else m' == m && rroot == m[p.root].right
    ensures Linked(m', rroot, PutLeft(t.r, t.m.r))
    ensures Linked(m', m[p.root].left, t.m.l)
  {
    hide InOrder;
    InStore(m, p.root, t.m);
    InStore(m, p.rroot, t.r);
    Frame(m, m', m[p.root].right, t.m.r);
    Frame(m, m', m[p.root].left, t.m.l);
    if t.r.Node? {
      LinkLeft(m, m', p.rroot, t.r, m[p.root].right, t.m.r);
    }
  }

  lemma PutRightLinks(m: Store, m': Store, p: Split, t: Trees, lroot: Address)
    requires Linked(m, p.lroot, t.l) && AtRight(p.left, t.l) && t.m.Node? && p.root in m && Nodes(t.l) !! Nodes(t.m)
    requires Linked(m, m[p.root].left, t.m.l) && m'.Keys == m.Keys
    requires if p.left != 0 then p.left in m && m' == m[p.left := m[p.left].(right := m[p.root].left)]
      && lroot == p.lroot
             else m' == m && lroot == m[p.root].left
    ensures Linked(m', lroot, PutRight(t.l, t.m.l))
  {
    hide InOrder;
    InStore(m, m[p.root].left, t.m.l);
    InStore(m, p.lroot, t.l);
    Frame(m, m', m[p.root].left, t.m.l);
    if t.l.Node? {
      LinkRight(m, m', p.lroot, t.l, m[p.root].left, t.m.l);
    }
  }

  /** Without the name the two trees are joined. */
  method Join(m: Store, p: Split, ghost t: Trees) returns (m': Store, root: Address, ghost t': Tree)
    requires Shapes(m, p, t) && t.m.Leaf?
    ensures Linked(m', root, t') && Nodes(t') == Nodes(t.l) + Nodes(t.r) && InOrder(t') == InOrder(t.l) + InOrder(t.r)
    ensures m'.Keys == m.Keys && SameData(m, m')
  {
    hide PutRight, Linked;
    InStore(m, p.lroot, t.l);
    InStore(m, p.rroot, t.r);
    m', root, t' := m, p.root, t.r;
    if p.left != 0 {
      m' := m'[p.left := m'[p.left].(right := p.rroot)];
      root := p.lroot;
      t' := PutRight(t.l, t.r);
      Frame(m, m', p.rroot, t.r);
      LinkRight(m, m', p.lroot, t.l, p.rroot, t.r);
      PutRightFacts(t.l, t.r);
    } else if p.right != 0 {
      m' := m'[p.right := m'[p.right].(left := p.lroot)];
      root := p.rroot;
      NoLink(m, m', p, t);
    } else {
      BothEmpty(m, p, t);
    }
  }

  /** The end of the right tree already has no left child. */
  lemma NoLink(m: Store, m': Store, p: Split, t: Trees)
    requires Shapes(m, p, t) && p.left == 0 && p.right != 0 && p.right in m
    requires m' == m[p.right := m[p.right].(left := p.lroot)]
    ensures Linked(m', p.rroot, t.r) && t.l.Leaf?
  {
    InStore(m, p.lroot, t.l);
    assert t.l.Leaf? && p.lroot == 0;
    EndsNull(m, p.rroot, t.r);
    Frame(m, m', p.rroot, t.r);
  }

  lemma {:induction false} EndsNull(m: Store, p: Address, t: Tree)
    requires Linked(m, p, t) && t.Node?
    ensures Leftmost(t) in m && m[Leftmost(t)].left == 0
    decreases t
  {
    if t.l.Node? {
      EndsNull(m, m[t.x].left, t.l);
    }
  }

  lemma BothEmpty(m: Store, p: Split, t: Trees)
    requires Shapes(m, p, t) && p.left == 0 && p.right == 0 && t.m.Leaf?
    ensures t.l.Leaf? && t.r.Leaf? && p.root == 0
  {
    InStore(m, p.lroot, t.l);
    InStore(m, p.rroot, t.r);
  }
}
