/**
 The dictionary of mamake (src/cmd/INIT/mamake.c:478-596): search, which splays the tree on
 every call and still answers as a finite map would, and the ordered walk.
 */
module Dictionary {
  import opened Names
  import opened ItemStore
  import opened SplaySearch

  /** Names and values in order. */
  ghost function Listing(m: Store, s: seq<Address>): (r: seq<(string, Address)>)
    requires forall i :: 0 <= i < |s| ==> s[i] in m
    ensures |r| == |s|
  {
    seq(|s|, i requires 0 <= i < |s| => (m[s[i]].name, m[s[i]].value))
  }

  /** The finite map that a listing stands for; 0 stands for no value. */
  ghost function Lookup(c: seq<(string, Address)>, name: string): Address {
    if c == [] then 0 else if c[0].0 == name then c[0].1 else Lookup(c[1..], name)
  }

  /** The tree that a search ends with has the items in the order they had. */
  lemma FoundOrder(m0: Store, s: Trees, t0: Tree, name: string)
    requires Covers(m0, s, t0, name) && s.m.Node?
    ensures var t := Node(PutRight(s.l, s.m.l), s.m.x, PutLeft(s.r, s.m.r));
            && InOrder(t) == InOrder(t0) && Nodes(t) == Nodes(t0)
            && var i := |InOrder(s.l)| + |InOrder(s.m.l)|; i < |InOrder(t)| && InOrder(t)[i] == s.m.x
  {
    hide PutLeft, PutRight, InOrder, Nodes, Above, Below;
    PutRightFacts(s.l, s.m.l);
    PutLeftFacts(s.r, s.m.r);
    TreeParts(Node(PutRight(s.l, s.m.l), s.m.x, PutLeft(s.r, s.m.r)));
    TreeParts(s.m);
    FiveParts(InOrder(s.l), InOrder(s.m.l), s.m.x, InOrder(s.m.r), InOrder(s.r));
  }

  lemma FiveParts(a: seq<Address>, b: seq<Address>, x: Address, c: seq<Address>, d: seq<Address>)
    ensures (a + b) + [x] + (c + d) == a + (b + [x] + c) + d
    ensures ((a + b) + [x] + (c + d))[|a| + |b|] == x
  {
  }

  /** Ascending names and the listing depend on names and values alone. */
  lemma AscendsSame(m: Store, m': Store, s: seq<Address>)
    requires Ascends(m, s) && forall x :: x in m ==> x in m' && m'[x].name == m[x].name
    ensures Ascends(m', s) && forall i :: 0 <= i < |s| ==> s[i] in m
  {
    hide Less;
  }

  lemma ListingUpdate(m: Store, m': Store, s: seq<Address>, i: nat, v: Address)
    requires Ascends(m, s) && i < |s| && m'.Keys == m.Keys && forall x :: x in m ==> m'[x].name == m[x].name
    requires m'[s[i]].value == v && forall x :: x in m && x != s[i] ==> m'[x].value == m[x].value
    ensures Listing(m', s) == Listing(m, s)[i := (m[s[i]].name, v)]
  {
    forall j | 0 <= j < |s|
      ensures Listing(m', s)[j] == Listing(m, s)[i := (m[s[i]].name, v)][j]
    {
      CompareOrder(m[s[i]].name, m[s[i]].name);
    }
  }

  // ------------------------------------------------------------------- walking

  /** The callback, told what it was called for before, was called for a first part of s in
      order: up to the item at which it asked to stop, or for all of s. */
  ghost predicate Ran(halt: (seq<Address>, Address) -> bool, log0: seq<Address>, s: seq<Address>, log: seq<Address>,
                      stopped: bool) {
    && |log0| <= |log| <= |log0| + |s| && log == log0 + s[..|log| - |log0|]
    && (if stopped then |log| > |log0| && halt(log[..|log| - 1], log[|log| - 1]) else |log| == |log0| + |s|)
    && forall i :: |log0| <= i < |log| - (if stopped then 1 else 0) ==> !halt(log[..i], log[i])
  }

  lemma RanNothing(halt: (seq<Address>, Address) -> bool, log: seq<Address>)
    ensures Ran(halt, log, [], log, false)
  {
  }

  lemma RanOne(halt: (seq<Address>, Address) -> bool, log: seq<Address>, x: Address)
    ensures Ran(halt, log, [x], log + [x], halt(log, x))
  {
    assert (log + [x])[..|log|] == log;
  }

  /** Stopping in a first part is stopping in the whole. */
  lemma RanStops(halt: (seq<Address>, Address) -> bool, log0: seq<Address>, s: seq<Address>, u: seq<Address>,
                 log: seq<Address>)
    requires Ran(halt, log0, s, log, true)
    ensures Ran(halt, log0, s + u, log, true)
  {
    var n := |log| - |log0|;
    assert (s + u)[..n] == s[..n];
  }

  /** Going on after a first part. */
  lemma RanThen(halt: (seq<Address>, Address) -> bool, log0: seq<Address>, s: seq<Address>, log1: seq<Address>,
                u: seq<Address>, log: seq<Address>, stopped: bool)
    requires Ran(halt, log0, s, log1, false) && Ran(halt, log1, u, log, stopped)
    ensures Ran(halt, log0, s + u, log, stopped)
  {
    var n := |log| - |log1|;
    assert log1 == log0 + s;
    assert (s + u)[..|s| + n] == s + u[..n];
    forall i | |log0| <= i < |log| - (if stopped then 1 else 0)
      ensures !halt(log[..i], log[i])
    {
      if i < |log1| {
        assert log[..i] == log1[..i] && log[i] == log1[i];
      }
    }
  }

  lemma LeafOrder(m: Store, p: Address, t: Tree)
    requires Linked(m, p, t) && p == 0
    ensures InOrder(t) == []
  {
  }

  /** apply: recursive to the left, a loop to the right. */
  method Apply(m: Store, p0: Address, ghost t0: Tree, log0: seq<Address>, halt: (seq<Address>, Address) -> bool)
    returns (stopped: bool, log: seq<Address>)
    requires Linked(m, p0, t0) && p0 != 0
    ensures Ran(halt, log0, InOrder(t0), log, stopped)
    decreases t0
  {
    hide InOrder, Nodes, Linked, Ran;
    var p := p0;
    ghost var t, done := t0, [];
    log := log0;
    RanNothing(halt, log);
    while true
      invariant Linked(m, p, t) && p != 0 && (t == t0 || t < t0)
      invariant Ran(halt, log0, done, log, false) && InOrder(t0) == done + InOrder(t)
      decreases t
    {
      NotLeaf(m, p, t);
      NodeLinks(m, p, t);
      TreeParts(t);
      ghost var log1, a, b := log, InOrder(t.l), InOrder(t.r);
      assert done + (a + [p] + b) == done + a + ([p] + b) == done + a + [p] + b;
      var right := m[p].right;
      stopped := false;
      if m[p].left != 0 {
        stopped, log := Apply(m, m[p].left, t.l, log, halt);
        if stopped {
          RanThen(halt, log0, done, log1, a, log, true);
          RanStops(halt, log0, done + a, [p] + b, log);
          return;
        }
      } else {
        LeafOrder(m, m[p].left, t.l);
        RanNothing(halt, log);
      }
      RanThen(halt, log0, done, log1, a, log, false);
      ghost var log2 := log;
      stopped := halt(log, p);
      log := log + [p];
      RanOne(halt, log2, p);
      RanThen(halt, log0, done + a, log2, [p], log, stopped);
      if stopped {
        RanStops(halt, log0, done + a + [p], b, log);
        return;
      }
      done := done + a + [p];
      if right == 0 {
        LeafOrder(m, right, t.r);
        assert done + [] == done;
        return;
      }
      p, t := right, t.r;
    }
  }

  lemma NodeLinks(m: Store, p: Address, t: Tree)
    requires Linked(m, p, t) && t.Node?
    ensures p == t.x && p in m && Linked(m, m[p].left, t.l) && Linked(m, m[p].right, t.r)
  {
  }

  /** The name is in the listing. */
  ghost predicate Has(c: seq<(string, Address)>, name: string) {
    exists i :: 0 <= i < |c| && c[i].0 == name
  }

  lemma SameEntry(c: seq<(string, Address)>, i: nat)
    requires i < |c|
    ensures c[i := (c[i].0, c[i].1)] == c
  {
  }

  class Dict {
    var root: Address
    var items: Store
    var unused: Address
    ghost var t: Tree

    /** The items form one search tree, without sharing, and every value is set. */
    ghost predicate Valid()
      reads this
    {
      && Linked(items, root, t) && Nodes(t) == items.Keys && Ascends(items, InOrder(t))
      && unused > 0 && (forall x :: x in items ==> x < unused && items[x].value != 0)
    }

    ghost function Contents(): seq<(string, Address)>
      requires Valid()
      reads this
    {
      Listing(items, InOrder(t))
    }

    constructor ()
      ensures Valid() && Contents() == []
    {
      root, items, unused, t := 0, map[], 1, Leaf;
    }

    /** The pointer operations that follow the search loop when the name was found. */
    method Found(m: Store, p: Split, value: Address, ghost s: Trees, name: string) returns (r: Address, ghost i: nat)
      requires Valid() && Shapes(m, p, s) && Covers(items, s, t, name) && Relinked(items, m, t)
      requires p.root != 0 && p.root in m && m[p.root].name == name
      modifies this
      ensures Valid() && root == p.root && root in items && items[root].name == name
      ensures r == if value != 0 then root else items[root].value
      ensures i < |old(Contents())| && old(Contents())[i].0 == name
      ensures items[root].value == if value != 0 then value else old(Contents())[i].1
      ensures Contents() == old(Contents())[i := (name, items[root].value)]
    {
      hide Linked, InOrder, Nodes, Covers, Ascends, PutLeft, PutRight, Less, Compare;
      ghost var m0, t0 := items, t;
      assert s.m.Node? && s.m.x == p.root by {
        NotLeaf(m, p.root, s.m);
      }
      FoundOrder(m0, s, t0, name);
      i := |InOrder(s.l)| + |InOrder(s.m.l)|;
      var m', lroot, rroot;
      ghost var l, rt;
      m', lroot, rroot, l, rt := Reassemble(m, p, s);
      ghost var m1 := m';
      if value != 0 {
        m' := m'[p.root := m'[p.root].(value := value)];
      }
      m' := m'[p.root := m'[p.root].(left := lroot)];
      m' := m'[p.root := m'[p.root].(right := rroot)];
      Crown(m, m1, m', p, s, lroot, rroot);
      AscendsSame(m0, m', InOrder(t0));
      InOrderIn(t0, i);
      ListingUpdate(m0, m', InOrder(t0), i, m'[p.root].value);
      items := m';
      root := p.root;
      t := Node(l, root, rt);
      r := if value != 0 then root else items[root].value;
    }

    /** The name was not found and is not to be entered. */
    method Missed(m: Store, p: Split, ghost s: Trees, name: string)
      requires Valid() && Shapes(m, p, s) && Covers(items, s, t, name) && Relinked(items, m, t) && p.root == 0
      modifies this
      ensures Valid() && Contents() == old(Contents())
      ensures forall i :: 0 <= i < |Contents()| ==> Contents()[i].0 != name
    {
      hide Linked, Nodes, InOrder, Covers, Ascends, Less, Compare;
      ghost var m0, t0 := items, t;
      EmptyMiddle(m, p, s);
      NameAbsent(m0, s, t0, name);
      var m', r;
      ghost var t';
      m', r, t' := Join(m, p, s);
      assert InOrder(t') == InOrder(t0);
      AscendsSame(m0, m', InOrder(t0));
      items, root, t := m', r, t';
      ListingSame(m0, m', InOrder(t0));
    }

    /** A new item becomes the root, between the left and the right tree. */
    method Entered(m: Store, p: Split, value: Address, ghost s: Trees, name: string) returns (ghost i: nat)
      requires Valid() && Shapes(m, p, s) && Covers(items, s, t, name) && Relinked(items, m, t) && p.root == 0
        && value != 0
      modifies this
      ensures Valid() && root in items && items[root].name == name
      ensures forall i :: 0 <= i < |old(Contents())| ==> old(Contents())[i].0 != name
      ensures i <= |old(Contents())| && Contents() == old(Contents())[..i] + [(name, value)] + old(Contents())[i..]
    {
      hide Linked, Ascends, Less, Compare, Above, Below, InOrder, Nodes, Covers;
      ghost var m0, t0, x := items, t, unused;
      EmptyMiddle(m, p, s);
      NameAbsent(m0, s, t0, name);
      TreeParts(Node(s.l, x, s.r));
      i := |InOrder(s.l)|;
      items := m[unused := Item(name, value, p.lroot, p.rroot)];
      root := unused;
      unused := unused + 1;
      t := Node(s.l, root, s.r);
      Frame(m, items, p.lroot, s.l);
      Frame(m, items, p.rroot, s.r);
      CrownNew(items, x, s, p);
      AscendsSame(m0, items, InOrder(t0));
      AscendsNew(m0, items, InOrder(s.l), x, InOrder(s.r), name);
      ListingNew(m0, items, InOrder(s.l), x, InOrder(s.r));
    }

    /**
     search: the value of a name or, if a value is given, its new value.  Whatever it does to
     the links, the listing stays as it was but for that one entry.
     */
    method Search(name: string, value: Address) returns (r: Address, ghost i: nat)
      requires Valid()
      modifies this
      ensures Valid() && i <= |old(Contents())|
      ensures Has(old(Contents()), name) ==> i < |old(Contents())| && old(Contents())[i].0 == name
      ensures Contents() ==
              if Has(old(Contents()), name)
                then (if value != 0 then old(Contents())[i := (name, value)] else old(Contents()))
              else if value != 0 then old(Contents())[..i] + [(name, value)] + old(Contents())[i..] else old(Contents())
      ensures Has(Contents(), name) ==> root in items && items[root].name == name
      ensures value == 0 ==> r == if Has(old(Contents()), name) then old(Contents())[i].1 else 0
      ensures value != 0 ==> r == root
    {
      hide Linked, InOrder, Nodes, Covers, Ascends, Shapes, Relinked;
      r, i := 0, 0;
      ghost var c := Contents();
      ghost var s;
      var m, p;
      m, p, s := Descend(items, root, name, t);
      if p.root != 0 {
        r, i := Found(m, p, value, s, name);
        assert Has(c, name);
        SameEntry(c, i);
      } else if value != 0 {
        i := Entered(m, p, value, s, name);
        r := root;
      } else {
        Missed(m, p, s, name);
      }
    }

    /** walk: calls the callback for the items in order until it asks to stop. */
    method Walk(halt: (seq<Address>, Address) -> bool) returns (stopped: bool, calls: seq<Address>)
      requires Valid()
      ensures Ran(halt, [], InOrder(t), calls, stopped)
      ensures !stopped ==> calls == InOrder(t)
    {
      hide InOrder, Nodes, Ascends;
      stopped, calls := false, [];
      RanNothing(halt, []);
      if root != 0 {
        NotLeaf(items, root, t);
        stopped, calls := Apply(items, root, t, [], halt);
      } else {
        LeafOrder(items, root, t);
      }
    }

    lemma NamesDistinct()
      requires Valid()
      ensures Distinct(Contents())
    {
      DistinctNames(items, InOrder(t));
    }
  }

  lemma NotLeaf(m: Store, p: Address, t: Tree)
    requires Linked(m, p, t) && p != 0
    ensures t.Node? && t.x == p
  {
  }

  lemma InOrderIn(t: Tree, i: nat)
    requires i < |InOrder(t)|
    ensures InOrder(t)[i] in Nodes(t)
  {
    NodesInOrder(t, InOrder(t)[i]);
  }

  /** The found item on top of the two trees. */
  lemma Crown(m: Store, m1: Store, m': Store, p: Split, s: Trees, lroot: Address, rroot: Address)
    requires Shapes(m, p, s) && s.m.Node? && s.m.x == p.root
    requires Linked(m1, lroot, PutRight(s.l, s.m.l)) && Linked(m1, rroot, PutLeft(s.r, s.m.r))
    requires m'.Keys == m1.Keys && p.root in m1 && SameLinks(m1, m', m1.Keys - {p.root})
    requires m'[p.root].left == lroot && m'[p.root].right == rroot
    ensures Linked(m', p.root, Node(PutRight(s.l, s.m.l), p.root, PutLeft(s.r, s.m.r)))
  {
    hide InOrder, PutLeft, PutRight;
    InStore(m, p.root, s.m);
    PutRightFacts(s.l, s.m.l);
    PutLeftFacts(s.r, s.m.r);
    Frame(m1, m', lroot, PutRight(s.l, s.m.l));
    Frame(m1, m', rroot, PutLeft(s.r, s.m.r));
  }

  lemma EmptyMiddle(m: Store, p: Split, s: Trees)
    requires Shapes(m, p, s) && p.root == 0
    ensures s.m == Leaf
  {
  }

  /** Cut around a name that is not in the middle, the tree does not have it. */
  lemma NameAbsent(m0: Store, s: Trees, t0: Tree, name: string)
    requires Covers(m0, s, t0, name) && s.m == Leaf && Ascends(m0, InOrder(t0))
    ensures InOrder(t0) == InOrder(s.l) + InOrder(s.r) && Nodes(t0) == Nodes(s.l) + Nodes(s.r)
    ensures Below(m0, InOrder(s.l), name) && Above(m0, InOrder(s.r), name)
    ensures forall i :: 0 <= i < |InOrder(t0)| ==> m0[InOrder(t0)[i]].name != name
  {
    hide Less;
    var a, b := InOrder(s.l), InOrder(s.r);
    assert InOrder(t0) == a + b;
    forall i | 0 <= i < |a + b|
      ensures m0[(a + b)[i]].name != name
    {
      NotLess(name);
    }
  }

  lemma ListingSame(m: Store, m': Store, s: seq<Address>)
    requires (forall i :: 0 <= i < |s| ==> s[i] in m) && SameData(m, m')
    ensures forall i :: 0 <= i < |s| ==> s[i] in m'
    ensures Listing(m', s) == Listing(m, s)
  {
  }

  lemma CrownNew(m: Store, x: Address, s: Trees, p: Split)
    requires Linked(m, p.lroot, s.l) && Linked(m, p.rroot, s.r) && Nodes(s.l) !! Nodes(s.r)
    requires x != 0 && x !in Nodes(s.l) && x !in Nodes(s.r) && x in m && m[x].left == p.lroot && m[x].right == p.rroot
    ensures Linked(m, x, Node(s.l, x, s.r))
  {
  }

  lemma AscendsNew(m0: Store, m: Store, a: seq<Address>, x: Address, b: seq<Address>, name: string)
    requires Below(m0, a, name) && Above(m0, b, name) && Ascends(m, a + b) && x in m && m[x].name == name
    requires forall y :: y in m0 ==> y in m && m[y].name == m0[y].name
    ensures Ascends(m, a + [x] + b)
  {
    hide Less;
    var s, u := a + [x] + b, a + b;
    forall i, j | 0 <= i < j < |s|
      ensures Less(m[s[i]].name, m[s[j]].name)
    {
      if i != |a| && j != |a| {
        assert s[i] == u[if i < |a| then i else i - 1] && s[j] == u[if j < |a| then j else j - 1];
      }
    }
  }

  lemma ListingNew(m0: Store, m: Store, a: seq<Address>, x: Address, b: seq<Address>)
    requires (forall i :: 0 <= i < |a + b| ==> (a + b)[i] in m0) && x in m
    requires forall y :: y in m0 ==> y in m && m[y].name == m0[y].name && m[y].value == m0[y].value
    ensures forall i :: 0 <= i < |a + [x] + b| ==> (a + [x] + b)[i] in m
    ensures var c := Listing(m0, a + b); Listing(m, a + [x] + b) == c[..|a|] + [(m[x].name, m[x].value)] + c[|a|..]
  {
    var s := a + [x] + b;
    forall i | 0 <= i < |s|
      ensures s[i] in m && (i != |a| ==> s[i] == (a + b)[if i < |a| then i else i - 1])
    {
      if i != |a| {
        assert s[i] == (a + b)[if i < |a| then i else i - 1];
      }
    }
  }

  // ------------------------------------------------------ refining a finite map

  ghost predicate Distinct(c: seq<(string, Address)>) {
    forall i, j :: 0 <= i < j < |c| ==> c[i].0 != c[j].0
  }

  lemma DistinctNames(m: Store, s: seq<Address>)
    requires Ascends(m, s)
    ensures forall i :: 0 <= i < |s| ==> s[i] in m
    ensures Distinct(Listing(m, s))
  {
    forall i, j | 0 <= i < j < |s|
      ensures m[s[i]].name != m[s[j]].name
    {
      CompareOrder(m[s[i]].name, m[s[j]].name);
    }
  }

  lemma {:induction false} LookupAt(c: seq<(string, Address)>, i: nat)
    requires Distinct(c) && i < |c|
    ensures Lookup(c, c[i].0) == c[i].1
    decreases |c|
  {
    if i > 0 {
      assert c[1..][i - 1] == c[i];
      LookupAt(c[1..], i - 1);
    }
  }

  lemma {:induction false} LookupNone(c: seq<(string, Address)>, name: string)
    requires !Has(c, name)
    ensures Lookup(c, name) == 0
    decreases |c|
  {
    if c != [] {
      assert c[0].0 != name;
      assert forall i :: 0 <= i < |c[1..]| ==> c[1..][i] == c[i + 1];
      LookupNone(c[1..], name);
    }
  }

  /** Changing one entry changes the value of that name only. */
  lemma {:induction false} LookupUpdate(c: seq<(string, Address)>, i: nat, v: Address, name: string)
    requires Distinct(c) && i < |c|
    ensures Lookup(c[i := (c[i].0, v)], name) == if name == c[i].0 then v else Lookup(c, name)
    decreases |c|
  {
    var d := c[i := (c[i].0, v)];
    if i > 0 {
      assert d[1..] == c[1..][i - 1 := (c[1..][i - 1].0, v)];
      LookupUpdate(c[1..], i - 1, v, name);
    } else {
      assert d[1..] == c[1..];
    }
  }

  /** A new entry adds the value of that name only. */
  lemma {:induction false} LookupInsert(c: seq<(string, Address)>, i: nat, added: string, v: Address, name: string)
    requires !Has(c, added) && i <= |c|
    ensures Lookup(c[..i] + [(added, v)] + c[i..], name) == if name == added then v else Lookup(c, name)
    decreases |c|
  {
    var d := c[..i] + [(added, v)] + c[i..];
    if i > 0 {
      assert forall k :: 0 <= k < |c[1..]| ==> c[1..][k] == c[k + 1];
      assert d[1..] == c[1..][..i - 1] + [(added, v)] + c[1..][i - 1..];
      assert d[0] == c[0] && c[0].0 != added;
      LookupInsert(c[1..], i - 1, added, v, name);
    } else {
      assert d[1..] == c;
    }
  }

  /** The listing answers as the map does. */
  ghost predicate Agrees(c: seq<(string, Address)>, mp: map<string, Address>) {
    forall name: string :: Lookup(c, name) == if name in mp then mp[name] else 0
  }

  /** What a finite map answers to the lookups (value 0) among these requests. */
  function MapRun(mp: map<string, Address>, ops: seq<(string, Address)>): seq<Address>
    decreases |ops|
  {
    if ops == [] then []
    else if ops[0].1 != 0 then MapRun(mp[ops[0].0 := ops[0].1], ops[1..])
    else [if ops[0].0 in mp then mp[ops[0].0] else 0] + MapRun(mp, ops[1..])
  }

  lemma AgreesAfter(c: seq<(string, Address)>, c': seq<(string, Address)>, mp: map<string, Address>, name: string,
                    v: Address, i: nat)
    requires Distinct(c) && Agrees(c, mp) && i <= |c| && v != 0
    requires if Has(c, name) then i < |c| && c[i].0 == name && c' == c[i := (name, v)]
             else c' == c[..i] + [(name, v)] + c[i..]
    ensures Agrees(c', mp[name := v])
  {
    forall n: string
      ensures Lookup(c', n) == if n in mp[name := v] then mp[name := v][n] else 0
    {
      if Has(c, name) {
        LookupUpdate(c, i, v, n);
      } else {
        LookupInsert(c, i, name, v, n);
      }
    }
  }

  /** The dictionary answers every sequence of requests as a finite map would. */
  method RunAll(ops: seq<(string, Address)>) returns (answers: seq<Address>)
    ensures answers == MapRun(map[], ops)
  {
    hide Lookup, Dict.Valid, Dict.Contents, Listing, Ascends, InOrder;
    var d := new Dict();
    answers := [];
    ghost var mp: map<string, Address> := map[];
    NothingListed();
    var i := 0;
    while i < |ops|
      invariant 0 <= i <= |ops| && fresh(d) && d.Valid() && Agrees(d.Contents(), mp)
      invariant answers + MapRun(mp, ops[i..]) == MapRun(map[], ops)
    {
      var name, v := ops[i].0, ops[i].1;
      ghost var c := d.Contents();
      d.NamesDistinct();
      var r;
      ghost var at;
      r, at := d.Search(name, v);
      assert ops[i..][1..] == ops[i + 1..];
      if v == 0 {
        if Has(c, name) {
          LookupAt(c, at);
        } else {
          LookupNone(c, name);
        }
        answers := answers + [r];
      } else {
        AgreesAfter(c, d.Contents(), mp, name, v, at);
        mp := mp[name := v];
      }
      i := i + 1;
    }
  }

  lemma NothingListed()
    ensures Agrees([], map[])
  {
  }
}
