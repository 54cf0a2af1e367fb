/**
 recurse over the dictionary of rules (src/cmd/INIT/mamake.c:571-596, 2055-2061): its walk hands every
 rule that was entered to scan and to descend. So it is while nothing is looked up in the dictionary
 during the walk: descend does not, and scan only for an initializer's command under a view (1215).
 */
module MakeWalk {
  import opened Dictionary
  import opened ItemStore
  import opened MakeOrder

  /** The rule is entered in the dictionary. */
  ghost predicate HasRule(c: seq<(string, Address)>, r: nat) {
    exists i :: 0 <= i < |c| && c[i].1 == r + 1
  }

  /** Each rule is entered in the dictionary, at an address one above its number, and nothing else is. */
  ghost predicate Entered(g: Graph, c: seq<(string, Address)>) {
    && (forall i :: 0 <= i < |c| ==> 1 <= c[i].1 <= |g.leaf|)
    && forall r: nat :: r < |g.leaf| ==> HasRule(c, r)
  }

  lemma AllWalked(g: Graph, c: seq<(string, Address)>, walk: seq<nat>)
    requires Entered(g, c) && |walk| == |c| && forall k :: 0 <= k < |walk| ==> walk[k] + 1 == c[k].1
    ensures forall r: nat :: r in walk <==> r < |g.leaf|
  {
    forall r: nat | r < |g.leaf| ensures r in walk {
      assert HasRule(c, r);
      var k :| 0 <= k < |c| && c[k].1 == r + 1;
      assert walk[k] == r;
    }
  }

  /** The rules in the order of the walk, which is that of their names. */
  method RulesOf(d: Dict, g: Graph) returns (walk: seq<nat>)
    requires d.Valid() && Entered(g, d.Contents())
    ensures |walk| == |d.Contents()| && forall i :: 0 <= i < |walk| ==> walk[i] + 1 == d.Contents()[i].1
    ensures forall r: nat :: r in walk <==> r < |g.leaf|
  {
    hide ItemStore.InOrder, Linked, Nodes;
    var stopped, calls := d.Walk((before, item) => false);
    ghost var c := d.Contents();
    walk := [];
    var i := 0;
    while i < |calls|
      invariant 0 <= i == |walk| <= |calls| && forall k :: 0 <= k < i ==> walk[k] + 1 == c[k].1
    {
      assert c[i].1 == d.items[calls[i]].value;
      walk := walk + [d.items[calls[i]].value - 1];
      i := i + 1;
    }
    AllWalked(g, c, walk);
  }

  /** recurse: each directory is run at most once, those run are the wanted ones, and each comes after those
      it needs. */
  method RecurseOver(d: Dict, m: Recursion, initializers: set<nat>, c: Choice)
    requires d.Valid() && Entered(m.g, d.Contents()) && Proper(m.g) && m.made == {} && m.log == []
    modifies m
    ensures MakeOrder.Distinct(m.log) && Ordered(m.g, m.log) && Late(m.g, m.log, [])
    ensures Sound(m.g, m.log, AllTops(m.g, c, initializers)) && Complete(m.g, m.log, AllTops(m.g, c, initializers))
    ensures NoAliases(m.g) ==> forall x: nat :: x in m.log <==> Wanted(m.g, AllTops(m.g, c, initializers), x)
    ensures NoAliases(m.g) && Acyclic(m.g) ==> Sorted(m.g, m.log)
    ensures forall x: nat :: Asked(m.g, c, initializers, x) ==> Settled(m.g, m.log, x)
    ensures forall y :: y in m.log ==> IsLeaf(m.g, y) && MakeOrder.Behind(m.g, c, initializers, y)
    ensures c.All? && NoAliases(m.g) ==> forall x: nat :: x in m.log <==> IsLeaf(m.g, x)
  {
    var walk := RulesOf(d, m.g);
    m.Recurse(walk, initializers, c);
  }
}
