/**
 The items of a mamake dictionary (src/cmd/INIT/mamake.c:163-174) and the relinking steps of
 a search.  Items live in an explicit store, from addresses to cells, so that every
 assignment to a link is an update of the one cell it names and what else refers to that
 cell sees it.
 */
module ItemStore {
  /** Addresses of items and of values; 0 is the null pointer. */
  type Address = nat

  /** A dictionary item. */
  datatype Item = Item(name: string, value: Address, left: Address, right: Address)

  type Store = map<Address, Item>

  /** The shape of a tree of items. */
  datatype Tree = Leaf | Node(l: Tree, x: Address, r: Tree)

  ghost function Nodes(t: Tree): set<Address> {
    match t
    case Leaf => {}
    case Node(l, x, r) => Nodes(l) + {x} + Nodes(r)
  }

  ghost function InOrder(t: Tree): seq<Address> {
    match t
    case Leaf => []
    case Node(l, x, r) => InOrder(l) + [x] + InOrder(r)
  }

  /** The links from p on spell the tree t, and no item is reached twice. */
  ghost predicate Linked(m: Store, p: Address, t: Tree)
    decreases t
  {
    match t
    case Leaf => p == 0
    case Node(l, x, r) =>
      && p == x && x != 0 && x in m && x !in Nodes(l) && x !in Nodes(r) && Nodes(l) !! Nodes(r)
      && Linked(m, m[x].left, l) && Linked(m, m[x].right, r)
  }

  lemma {:induction false} NodesInOrder(t: Tree, x: Address)
    ensures x in InOrder(t) <==> x in Nodes(t)
  {
    if t.Node? {
      NodesInOrder(t.l, x);
      NodesInOrder(t.r, x);
    }
  }

  /** Two stores have the same links at these addresses. */
  ghost predicate SameLinks(m: Store, m': Store, xs: set<Address>) {
    forall x :: x in xs && x in m ==> x in m' && m'[x].left == m[x].left && m'[x].right == m[x].right
  }

  /** A tree is not affected by what happens to other items. */
  lemma {:induction false} Frame(m: Store, m': Store, p: Address, t: Tree)
    requires Linked(m, p, t) && SameLinks(m, m', Nodes(t))
    ensures Linked(m', p, t)
    decreases t
  {
    if t.Node? {
      Frame(m, m', m[t.x].left, t.l);
      Frame(m, m', m[t.x].right, t.r);
    }
  }

  // ----------------------------------------------- the left and the right tree

  /** s in place of the empty tree at the left end of t. */
  ghost function PutLeft(t: Tree, s: Tree): Tree {
    if t.Leaf? then s else Node(PutLeft(t.l, s), t.x, t.r)
  }

  ghost function PutRight(t: Tree, s: Tree): Tree {
    if t.Leaf? then s else Node(t.l, t.x, PutRight(t.r, s))
  }

  ghost function Leftmost(t: Tree): (x: Address)
    requires t.Node?
    ensures x in Nodes(t)
  {
    if t.l.Leaf? then t.x else Leftmost(t.l)
  }

  ghost function Rightmost(t: Tree): (x: Address)
    requires t.Node?
    ensures x in Nodes(t)
  {
    if t.r.Leaf? then t.x else Rightmost(t.r)
  }

  lemma {:induction false} PutLeftFacts(t: Tree, s: Tree)
    ensures Nodes(PutLeft(t, s)) == Nodes(t) + Nodes(s)
    ensures InOrder(PutLeft(t, s)) == InOrder(s) + InOrder(t)
  {
    if t.Node? {
      PutLeftFacts(t.l, s);
    }
  }

  lemma {:induction false} PutLeftEnd(t: Tree, s: Tree)
    requires s.Node? && s.l.Leaf?
    ensures PutLeft(t, s).Node? && Leftmost(PutLeft(t, s)) == s.x && (t.Leaf? ==> PutLeft(t, s) == s)
    ensures InOrder(s) == [s.x] + InOrder(s.r)
  {
    if t.Node? {
      PutLeftEnd(t.l, s);
    }
  }

  lemma {:induction false} PutRightFacts(t: Tree, s: Tree)
    ensures Nodes(PutRight(t, s)) == Nodes(t) + Nodes(s)
    ensures InOrder(PutRight(t, s)) == InOrder(t) + InOrder(s)
  {
    if t.Node? {
      PutRightFacts(t.r, s);
      assert InOrder(t) + InOrder(s) == InOrder(t.l) + [t.x] + (InOrder(t.r) + InOrder(s));
    }
  }

  lemma {:induction false} PutRightEnd(t: Tree, s: Tree)
    requires s.Node? && s.r.Leaf?
    ensures PutRight(t, s).Node? && Rightmost(PutRight(t, s)) == s.x && (t.Leaf? ==> PutRight(t, s) == s)
    ensures InOrder(s) == InOrder(s.l) + [s.x]
  {
    if t.Node? {
      PutRightEnd(t.r, s);
    }
  }

  /** Linking the tree s to the left end of t. */
  lemma {:induction false} LinkLeft(m: Store, m': Store, p: Address, t: Tree, q: Address, s: Tree)
    requires t.Node? && Linked(m, p, t) && Linked(m', q, s) && Nodes(t) !! Nodes(s)
    requires var e := Leftmost(t); SameLinks(m, m', Nodes(t) - {e}) && e in m && e in m' && m'[e] == m[e].(left := q)
    ensures Linked(m', p, PutLeft(t, s))
    decreases t
  {
    PutLeftFacts(t.l, s);
    Frame(m, m', m[t.x].right, t.r);
    if t.l.Node? {
      LinkLeft(m, m', m[t.x].left, t.l, q, s);
    }
  }

  lemma {:induction false} LinkRight(m: Store, m': Store, p: Address, t: Tree, q: Address, s: Tree)
    requires t.Node? && Linked(m, p, t) && Linked(m', q, s) && Nodes(t) !! Nodes(s)
    requires var e := Rightmost(t); SameLinks(m, m', Nodes(t) - {e}) && e in m && e in m' && m'[e] == m[e].(right := q)
    ensures Linked(m', p, PutRight(t, s))
    decreases t
  {
    PutRightFacts(t.r, s);
    Frame(m, m', m[t.x].left, t.l);
    if t.r.Node? {
      LinkRight(m, m', m[t.x].right, t.r, q, s);
    }
  }

  // ------------------------------------------------------------ relinking steps

  /** ROTATE(p, left, right, t): the left child comes up. */
  method RotateLeft(m: Store, p: Address, ghost t: Tree) returns (m': Store, p': Address, ghost t': Tree)
    requires Linked(m, p, t) && t.Node? && t.l.Node?
    ensures t' == Node(t.l.l, t.l.x, Node(t.l.r, t.x, t.r)) && Linked(m', p', t')
    ensures m'.Keys == m.Keys && SameLinks(m, m', m.Keys - {t.x, t.l.x}) && SameData(m, m')
    ensures Nodes(t') == Nodes(t) && InOrder(t') == InOrder(t)
  {
    var q := m[p].left;
    m' := m[p := m[p].(left := m[q].right)];
    m' := m'[q := m'[q].(right := p)];
    p' := q;
    t' := Node(t.l.l, t.l.x, Node(t.l.r, t.x, t.r));
    Frame(m, m', m[q].left, t.l.l);
    Frame(m, m', m[q].right, t.l.r);
    Frame(m, m', m[p].right, t.r);
    assert Linked(m', p, t'.r);
  }

  /** ROTATE(p, right, left, t): the right child comes up. */
  method RotateRight(m: Store, p: Address, ghost t: Tree) returns (m': Store, p': Address, ghost t': Tree)
    requires Linked(m, p, t) && t.Node? && t.r.Node?
    ensures t' == Node(Node(t.l, t.x, t.r.l), t.r.x, t.r.r) && Linked(m', p', t')
    ensures m'.Keys == m.Keys && SameLinks(m, m', m.Keys - {t.x, t.r.x}) && SameData(m, m')
    ensures Nodes(t') == Nodes(t) && InOrder(t') == InOrder(t)
  {
    var q := m[p].right;
    m' := m[p := m[p].(right := m[q].left)];
    m' := m'[q := m'[q].(left := p)];
    p' := q;
    t' := Node(Node(t.l, t.x, t.r.l), t.r.x, t.r.r);
    Frame(m, m', m[q].right, t.r.r);
    Frame(m, m', m[q].left, t.r.l);
    Frame(m, m', m[p].left, t.l);
    assert Linked(m', p, t'.l);
  }

  /** Names and values are the same, item by item. */
  ghost predicate SameData(m: Store, m': Store) {
    forall x :: x in m ==> x in m' && m'[x].name == m[x].name && m'[x].value == m[x].value
  }

  /** right is the item at the left end of t, or null. */
  ghost predicate AtLeft(right: Address, t: Tree) {
    right == if t.Leaf? then 0 else Leftmost(t)
  }

  ghost predicate AtRight(left: Address, t: Tree) {
    left == if t.Leaf? then 0 else Rightmost(t)
  }

  /** The root and what is right of it go to the left end of the right tree. */
  method HangRight(m: Store, root: Address, right: Address, rroot: Address, ghost t: Tree, ghost tr: Tree)
    returns (m': Store, root': Address, right': Address, rroot': Address, ghost tr': Tree)
    requires Linked(m, root, t) && t.Node? && Linked(m, rroot, tr) && Nodes(t) !! Nodes(tr) && AtLeft(right, tr)
    ensures tr' == PutLeft(tr, Node(Leaf, t.x, t.r)) && Linked(m', root', t.l) && Linked(m', rroot', tr')
      && AtLeft(right', tr')
    ensures m'.Keys == m.Keys && SameLinks(m, m', m.Keys - {t.x} - Nodes(tr)) && SameData(m, m')
    ensures Nodes(tr') == Nodes(tr) + {t.x} + Nodes(t.r) && InOrder(tr') == [t.x] + InOrder(t.r) + InOrder(tr)
  {
    InStore(m, rroot, tr);
    m', rroot' := m, rroot;
    if right != 0 {
      m' := m'[right := m'[right].(left := root)];
    } else {
      rroot' := root;
    }
    right' := root;
    root' := m'[root].left;
    m' := m'[right' := m'[right'].(left := 0)];
    tr' := PutLeft(tr, Node(Leaf, t.x, t.r));
    HungRight(m, m', root, right, rroot, t, tr);
    hide InOrder, PutLeft, Leftmost, Linked;
    PutLeftFacts(tr, Node(Leaf, t.x, t.r));
    PutLeftEnd(tr, Node(Leaf, t.x, t.r));
  }

  lemma HungRight(m: Store, m': Store, root: Address, right: Address, rroot: Address, t: Tree, tr: Tree)
    requires Linked(m, root, t) && t.Node? && Linked(m, rroot, tr) && Nodes(t) !! Nodes(tr) && AtLeft(right, tr)
    requires m'.Keys == m.Keys && SameLinks(m, m', m.Keys - {root, right})
    requires root in m && m'[root] == m[root].(left := 0)
    requires right != 0 ==> right in m && m'[right] == m[right].(left := root)
    ensures Linked(m', m[root].left, t.l)
    ensures Linked(m', if right == 0 then root else rroot, PutLeft(tr, Node(Leaf, t.x, t.r)))
  {
    hide InOrder, PutLeft;
    InStore(m, root, t);
    InStore(m, rroot, tr);
    var s := Node(Leaf, t.x, t.r);
    Frame(m, m', m[t.x].left, t.l);
    Frame(m, m', m[t.x].right, t.r);
    assert Linked(m', root, s);
    PutLeftEnd(tr, s);
    if tr.Node? {
      LinkLeft(m, m', rroot, tr, root, s);
    }
  }

  /** The root and what is left of it go to the right end of the left tree. */
  method HangLeft(m: Store, root: Address, left: Address, lroot: Address, ghost t: Tree, ghost tl: Tree)
    returns (m': Store, root': Address, left': Address, lroot': Address, ghost tl': Tree)
    requires Linked(m, root, t) && t.Node? && Linked(m, lroot, tl) && Nodes(t) !! Nodes(tl) && AtRight(left, tl)
    ensures tl' == PutRight(tl, Node(t.l, t.x, Leaf)) && Linked(m', root', t.r) && Linked(m', lroot', tl')
      && AtRight(left', tl')
    ensures m'.Keys == m.Keys && SameLinks(m, m', m.Keys - {t.x} - Nodes(tl)) && SameData(m, m')
    ensures Nodes(tl') == Nodes(tl) + {t.x} + Nodes(t.l) && InOrder(tl') == InOrder(tl) + InOrder(t.l) + [t.x]
  {
    InStore(m, lroot, tl);
    m', lroot' := m, lroot;
    if left != 0 {
      m' := m'[left := m'[left].(right := root)];
    } else {
      lroot' := root;
    }
    left' := root;
    root' := m'[root].right;
    m' := m'[left' := m'[left'].(right := 0)];
    tl' := PutRight(tl, Node(t.l, t.x, Leaf));
    HungLeft(m, m', root, left, lroot, t, tl);
    hide InOrder, PutRight, Rightmost, Linked;
    PutRightFacts(tl, Node(t.l, t.x, Leaf));
    PutRightEnd(tl, Node(t.l, t.x, Leaf));
  }

  lemma HungLeft(m: Store, m': Store, root: Address, left: Address, lroot: Address, t: Tree, tl: Tree)
    requires Linked(m, root, t) && t.Node? && Linked(m, lroot, tl) && Nodes(t) !! Nodes(tl) && AtRight(left, tl)
    requires m'.Keys == m.Keys && SameLinks(m, m', m.Keys - {root, left})
    requires root in m && m'[root] == m[root].(right := 0)
    requires left != 0 ==> left in m && m'[left] == m[left].(right := root)
    ensures Linked(m', m[root].right, t.r)
    ensures Linked(m', if left == 0 then root else lroot, PutRight(tl, Node(t.l, t.x, Leaf)))
  {
    hide InOrder, PutRight;
    InStore(m, root, t);
    InStore(m, lroot, tl);
    var s := Node(t.l, t.x, Leaf);
    Frame(m, m', m[t.x].left, t.l);
    Frame(m, m', m[t.x].right, t.r);
    assert Linked(m', root, s);
    PutRightEnd(tl, s);
    if tl.Node? {
      LinkRight(m, m', lroot, tl, root, s);
    }
  }

  lemma {:induction false} InStore(m: Store, p: Address, t: Tree)
    requires Linked(m, p, t)
    ensures forall x :: x in Nodes(t) ==> x in m && x != 0
    decreases t
  {
    if t.Node? {
      InStore(m, m[t.x].left, t.l);
      InStore(m, m[t.x].right, t.r);
    }
  }
}
