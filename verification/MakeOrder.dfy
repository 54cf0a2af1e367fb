/**
 The recursion of mamake over directories (src/cmd/INIT/mamake.c:1750-1775, 1963-1974, 2055-2061):
 update and descend, on a graph of rules that may have cycles.
 */
module MakeOrder {
  import opened Wrappers

  /** The rules: their prerequisites in list order and, for directories that have a makefile,
      the rule of their base name. */
  datatype Graph = Graph(prereqs: seq<seq<nat>>, leaf: seq<Option<nat>>)

  ghost predicate Proper(g: Graph) {
    && |g.prereqs| == |g.leaf|
    && forall r :: 0 <= r < |g.prereqs| ==> forall i :: 0 <= i < |g.prereqs[r]| ==> g.prereqs[r][i] < |g.prereqs|
  }

  predicate IsLeaf(g: Graph, r: nat) {
    r < |g.leaf| && g.leaf[r].Some?
  }

  /** x is a prerequisite of r that is a directory to be made. */
  predicate Needs(g: Graph, r: nat, x: nat) {
    r < |g.prereqs| && x in g.prereqs[r] && IsLeaf(g, x)
  }

  /** Every rule on the path needs the next. */
  ghost predicate Path(g: Graph, p: seq<nat>) {
    forall i :: 0 < i < |p| ==> Needs(g, p[i - 1], p[i])
  }

  ghost predicate Leads(g: Graph, p: seq<nat>, x: nat, r: nat) {
    |p| > 0 && Path(g, p) && p[0] == x && p[|p| - 1] == r
  }

  /** r is needed by x, directly or through others, or is x. */
  ghost predicate Reaches(g: Graph, x: nat, r: nat) {
    exists p: seq<nat> :: Leads(g, p, x, r)
  }

  /** No rule needs itself, directly or through others. */
  ghost predicate Acyclic(g: Graph) {
    forall r: nat, x: nat :: Needs(g, r, x) ==> !Reaches(g, x, r)
  }

  ghost predicate AliasOf(g: Graph, q: nat, x: nat) {
    IsLeaf(g, q) && q != x && g.leaf[q].value == x
  }

  /** x is the base name rule of another directory. */
  ghost predicate Aliased(g: Graph, x: nat) {
    exists q :: AliasOf(g, q, x)
  }

  /** x is the base name rule of a directory in s. */
  ghost predicate AliasedIn(g: Graph, s: seq<nat>, x: nat) {
    exists q :: q in s && AliasOf(g, q, x)
  }

  /** No base name rule of a directory is itself another directory. */
  ghost predicate NoAliases(g: Graph) {
    forall x: nat :: IsLeaf(g, x) ==> !Aliased(g, x)
  }

  ghost predicate Before(log: seq<nat>, x: nat, i: nat)
    requires i <= |log|
  {
    x in log[..i]
  }

  ghost predicate Distinct(log: seq<nat>) {
    forall i, j :: 0 <= i < j < |log| ==> log[i] != log[j]
  }

  /** Each rule that was run comes after what it needs, but for cycles and aliases. */
  ghost predicate Ordered(g: Graph, log: seq<nat>) {
    forall i: nat, x: nat :: i < |log| && Needs(g, log[i], x) ==>
      Before(log, x, i) || Reaches(g, x, log[i]) || Aliased(g, x)
  }

  /** x is needed by one of the tops, directly or through others, or is one. */
  ghost predicate Wanted(g: Graph, tops: set<nat>, x: nat) {
    exists t :: t in tops && Reaches(g, t, x)
  }

  /** The makefile rule that the walk takes up for rule r: r itself when everything is active,
      else the directory with the name of an active target. */
  datatype Choice = All | Only(active: set<nat>, leafNamed: map<nat, nat>)

  function Top(c: Choice, r: nat): Option<nat> {
    match c
    case All => Some(r)
    case Only(active, leafNamed) => if r in active && r in leafNamed then Some(leafNamed[r]) else None
  }

  ghost predicate TopIn(g: Graph, c: Choice, r: nat) {
    Top(c, r).Some? && IsLeaf(g, Top(c, r).value)
  }

  /** The directories that the walk over all rules takes up. */
  ghost function Tops(g: Graph, c: Choice): set<nat> {
    set r: nat | r < |g.leaf| && TopIn(g, c, r) :: Top(c, r).value
  }

  /** The initializers, which are always made. */
  ghost function Initial(g: Graph, initializers: set<nat>): set<nat> {
    set r: nat | r < |g.leaf| && IsLeaf(g, r) && r in initializers
  }

  /** A rule is made if it was run, is being made, or is the base name of such a one. */
  ghost predicate Accounts(g: Graph, made: set<nat>, log: seq<nat>, stack: seq<nat>) {
    && (forall x :: x in made ==> x in log || x in stack || AliasedIn(g, log + stack, x))
    && (forall x :: x in log ==> x in made && IsLeaf(g, x) && g.leaf[x].value in made)
    && (forall x :: x in stack ==> x in made && IsLeaf(g, x) && g.leaf[x].value in made && x !in log)
  }

  /** What was run is wanted, and what it needs is made. */
  ghost predicate Closed(g: Graph, made: set<nat>, log: seq<nat>, tops: set<nat>) {
    && (forall x :: x in log ==> Wanted(g, tops, x))
    && forall r: nat, x: nat :: r in log && Needs(g, r, x) ==> x in made
  }

  /** A base name is run after its directory only if it needs the directory. */
  ghost predicate Late(g: Graph, log: seq<nat>, stack: seq<nat>) {
    && (forall q, x :: q in log && x in stack && AliasOf(g, q, x) ==> Reaches(g, x, q))
    && forall i, j :: 0 <= i < j < |log| && AliasOf(g, log[i], log[j]) ==> Reaches(g, log[j], log[i])
  }

  /** The path from a top down to the directories being made. */
  ghost predicate Below(g: Graph, tops: set<nat>, stack: seq<nat>) {
    Path(g, stack) && Distinct(stack) && (stack != [] ==> stack[0] in tops)
  }

  ghost predicate Inv(g: Graph, made: set<nat>, log: seq<nat>, tops: set<nat>, stack: seq<nat>) {
    && Proper(g) && Distinct(log) && Ordered(g, log) && Late(g, log, stack)
    && Below(g, tops, stack) && Accounts(g, made, log, stack) && Closed(g, made, log, tops)
  }

  class Recursion {
    const g: Graph
    // the rules flagged as made, and the rules run, in this order
    var made: set<nat>
    var log: seq<nat>

    constructor (g: Graph)
      ensures this.g == g && made == {} && log == []
    {
      this.g := g;
      made, log := {}, [];
    }

    ghost predicate Keeps(tops: set<nat>, stack: seq<nat>)
      reads this
    {
      Inv(g, made, log, tops, stack)
    }

    /** The directories not made yet. */
    ghost function Rest(): set<nat>
      reads this
    {
      (set r: nat | r < |g.leaf| && IsLeaf(g, r)) - made
    }

    /** update: the prerequisites first, then the rule itself. */
    method Update(r: nat, ghost tops: set<nat>, ghost stack: seq<nat>)
      requires Keeps(tops, stack) && IsLeaf(g, r) && r !in made && Below(g, tops, stack + [r])
      modifies this
      ensures Keeps(tops, stack) && old(made) + {r} <= made && old(log) <= log && r in log
      decreases Rest()
    {
      hide Below, Accounts, Closed, Late, Ordered;
      Flagged(g, made, log, tops, stack, r);
      made := made + {r};
      made := made + {g.leaf[r].value};
      ghost var up := stack + [r];
      var i := 0;
      while i < |g.prereqs[r]|
        invariant 0 <= i <= |g.prereqs[r]| && Keeps(tops, up)
        invariant old(made) + {r} <= made && old(log) <= log
        invariant forall k :: 0 <= k < i && IsLeaf(g, g.prereqs[r][k]) ==> g.prereqs[r][k] in made
      {
        var x := g.prereqs[r][i];
        if g.leaf[x].Some? && x !in made {
          Deeper(g, made, log, tops, up, x);
          Update(x, tops, up);
        }
        i := i + 1;
      }
      Ran(g, made, log, tops, stack, r);
      log := log + [r];
    }

    /** The walk over all rules while makefiles are scanned: initializers are made at once. */
    method Start(walk: seq<nat>, initializers: set<nat>, ghost tops: set<nat>)
      requires Keeps(tops, []) && Initial(g, initializers) <= tops
      requires forall r: nat :: r in walk <==> r < |g.leaf|
      modifies this
      ensures Keeps(tops, []) && Initial(g, initializers) <= made
    {
      hide Inv;
      var i := 0;
      while i < |walk|
        invariant 0 <= i <= |walk| && Keeps(tops, [])
        invariant forall k :: 0 <= k < i && walk[k] in Initial(g, initializers) ==> walk[k] in made
      {
        var r := walk[i];
        assert r in walk;
        if g.leaf[r].Some? && r in initializers && r !in made {
          assert r in Initial(g, initializers);
          Update(r, tops, []);
        }
        i := i + 1;
      }
      forall x | x in Initial(g, initializers) ensures x in made {
        assert x in walk;
      }
    }

    /** The walk over all rules that descends into the directories to be made. */
    method Walk(walk: seq<nat>, c: Choice, ghost tops: set<nat>)
      requires Keeps(tops, []) && Tops(g, c) <= tops
      requires forall r: nat :: r in walk <==> r < |g.leaf|
      modifies this
      ensures Keeps(tops, []) && old(made) <= made && Tops(g, c) <= made
    {
      hide Inv;
      var i := 0;
      while i < |walk|
        invariant 0 <= i <= |walk| && Keeps(tops, []) && old(made) <= made
        invariant forall k :: 0 <= k < i && TopIn(g, c, walk[k]) ==> Top(c, walk[k]).value in made
      {
        var top := Top(c, walk[i]);
        if top.Some? && top.value < |g.leaf| && g.leaf[top.value].Some? && top.value !in made {
          assert walk[i] in walk && TopIn(g, c, walk[i]);
          Update(top.value, tops, []);
        }
        i := i + 1;
      }
      forall x | x in Tops(g, c) ensures x in made {
        var r: nat :| r < |g.leaf| && TopIn(g, c, r) && Top(c, r).value == x;
        assert r in walk;
      }
    }

    /** recurse, once the makefiles are scanned for prerequisites: whatever the graph is, it ends,
        each directory is run at most once and those run are wanted. Each wanted directory is run,
        but for one that is the base name of another that was run. */
    method Recurse(walk: seq<nat>, initializers: set<nat>, c: Choice)
      requires Proper(g) && made == {} && log == []
      requires forall r: nat :: r in walk <==> r < |g.leaf|
      modifies this
      ensures Distinct(log) && Ordered(g, log) && Late(g, log, [])
      ensures Sound(g, log, AllTops(g, c, initializers)) && Complete(g, log, AllTops(g, c, initializers))
      ensures NoAliases(g) ==> forall x: nat :: x in log <==> Wanted(g, AllTops(g, c, initializers), x)
      ensures NoAliases(g) && Acyclic(g) ==> Sorted(g, log)
      ensures forall x: nat :: Asked(g, c, initializers, x) ==> Settled(g, log, x)
      ensures forall y :: y in log ==> IsLeaf(g, y) && Behind(g, c, initializers, y)
      ensures c.All? && NoAliases(g) ==> forall x: nat :: x in log <==> IsLeaf(g, x)
    {
      ghost var tops := AllTops(g, c, initializers);
      AskedAreTops(g, c, initializers);
      Start(walk, initializers, tops);
      Walk(walk, c, tops);
      Finished(g, made, log, tops);
    }
  }

  ghost function AllTops(g: Graph, c: Choice, initializers: set<nat>): set<nat> {
    Tops(g, c) + Initial(g, initializers)
  }

  /** The directory is to be made: every one is when all is active, else it is an initializer, or has the name of
      an active target. */
  ghost predicate Asked(g: Graph, c: Choice, initializers: set<nat>, x: nat) {
    && IsLeaf(g, x)
    && match c
       case All => true
       case Only(active, leafNamed) =>
         x in initializers || exists r: nat :: r < |g.leaf| && r in active && r in leafNamed && leafNamed[r] == x
  }

  /** A directory that is to be made needs y, directly or through others, or is y. */
  ghost predicate Behind(g: Graph, c: Choice, initializers: set<nat>, y: nat) {
    exists x: nat :: Asked(g, c, initializers, x) && Reaches(g, x, y)
  }

  lemma AskedAreTops(g: Graph, c: Choice, initializers: set<nat>)
    ensures forall x: nat :: x in AllTops(g, c, initializers) <==> Asked(g, c, initializers, x)
  {
    forall x: nat | Asked(g, c, initializers, x) ensures x in AllTops(g, c, initializers) {
      match c {
        case All => assert TopIn(g, c, x);
        case Only(active, leafNamed) =>
          if x !in initializers {
            var r: nat :| r < |g.leaf| && r in active && r in leafNamed && leafNamed[r] == x;
            assert TopIn(g, c, r);
          }
      }
    }
  }

  ghost predicate Sound(g: Graph, log: seq<nat>, tops: set<nat>) {
    forall x :: x in log ==> IsLeaf(g, x) && Wanted(g, tops, x)
  }

  /** x was run, or is the base name of a directory that was. */
  ghost predicate Settled(g: Graph, log: seq<nat>, x: nat) {
    x in log || AliasedIn(g, log, x)
  }

  /** The tops, and all that the directories run need, are settled. */
  ghost predicate Complete(g: Graph, log: seq<nat>, tops: set<nat>) {
    && (forall x :: x in tops ==> Settled(g, log, x))
    && forall r: nat, x: nat :: r in log && Needs(g, r, x) ==> Settled(g, log, x)
  }

  /** Each rule run comes after all that it needs. */
  ghost predicate Sorted(g: Graph, log: seq<nat>) {
    forall i: nat, x: nat :: i < |log| && Needs(g, log[i], x) ==> Before(log, x, i)
  }

  /** What is known once all tops are made and nothing is being made. */
  lemma Finished(g: Graph, made: set<nat>, log: seq<nat>, tops: set<nat>)
    requires Inv(g, made, log, tops, []) && tops <= made && forall x :: x in tops ==> IsLeaf(g, x)
    ensures Sound(g, log, tops) && Complete(g, log, tops)
    ensures NoAliases(g) ==> forall x: nat :: x in log <==> Wanted(g, tops, x)
    ensures NoAliases(g) && Acyclic(g) ==> Sorted(g, log)
  {
    assert log + [] == log;
    if NoAliases(g) {
      forall x: nat | Wanted(g, tops, x) ensures x in log {
        var t :| t in tops && Reaches(g, t, x);
        var p :| Leads(g, p, t, x);
        AllAlong(g, log, tops, p, |p| - 1);
      }
    }
  }

  /** Without aliases a path from a top stays among the rules run. */
  lemma {:induction false} AllAlong(g: Graph, log: seq<nat>, tops: set<nat>, p: seq<nat>, i: nat)
    requires Complete(g, log, tops) && NoAliases(g) && forall x :: x in tops ==> IsLeaf(g, x)
    requires i < |p| && Path(g, p) && p[0] in tops
    ensures p[i] in log
  {
    if i > 0 {
      AllAlong(g, log, tops, p, i - 1);
      assert Needs(g, p[i - 1], p[i]);
    }
    assert Settled(g, log, p[i]);
  }

  /** A prerequisite not made yet extends the path. */
  lemma Deeper(g: Graph, made: set<nat>, log: seq<nat>, tops: set<nat>, up: seq<nat>, x: nat)
    requires Inv(g, made, log, tops, up) && up != [] && Needs(g, up[|up| - 1], x) && x !in made
    ensures Below(g, tops, up + [x])
  {
  }

  /** r and its base name are flagged as made. */
  lemma Flagged(g: Graph, made: set<nat>, log: seq<nat>, tops: set<nat>, stack: seq<nat>, r: nat)
    requires Inv(g, made, log, tops, stack) && IsLeaf(g, r) && r !in made && Below(g, tops, stack + [r])
    ensures Inv(g, made + {r} + {g.leaf[r].value}, log, tops, stack + [r])
  {
    var now := made + {r} + {g.leaf[r].value};
    var s, t := log + stack, log + (stack + [r]);
    assert t == s + [r] && r in t;
    forall x | x in now ensures x in log || x in stack + [r] || AliasedIn(g, t, x) {
      if x in made && x !in log && x !in stack {
        var q :| q in s && AliasOf(g, q, x);
        assert q in t;
      } else if x == g.leaf[r].value && x != r {
        assert AliasOf(g, r, x);
      }
    }
  }

  /** When all that r needs is made, r is run. */
  lemma Ran(g: Graph, made: set<nat>, log: seq<nat>, tops: set<nat>, stack: seq<nat>, r: nat)
    requires Inv(g, made, log, tops, stack + [r])
    requires forall x: nat :: Needs(g, r, x) ==> x in made
    ensures Inv(g, made, log + [r], tops, stack)
  {
    var up, l := stack + [r], log + [r];
    Shorter(g, stack, r);
    Counted(g, made, log, stack, r);
    forall x: nat | Needs(g, r, x) ensures x in log || x in up || Aliased(g, x) {
      assert x in made;
    }
    InOrder(g, log, up);
    LateStill(g, log, stack, r);
    assert Leads(g, up, up[0], r);
    assert Wanted(g, tops, r);
  }

  lemma Counted(g: Graph, made: set<nat>, log: seq<nat>, stack: seq<nat>, r: nat)
    requires Accounts(g, made, log, stack + [r]) && Distinct(stack + [r]) && Distinct(log)
    ensures Accounts(g, made, log + [r], stack) && Distinct(log + [r])
  {
    var up, l := stack + [r], log + [r];
    assert r in up && up[|stack|] == r;
    forall x | x in stack ensures x in up && x != r {
      var i :| 0 <= i < |stack| && stack[i] == x;
      assert up[i] == x;
    }
    forall x | x in made ensures x in l || x in stack || AliasedIn(g, l + stack, x) {
      if x !in l && x !in stack {
        var q :| q in log + up && AliasOf(g, q, x);
        assert q in l + stack;
      }
    }
  }

  lemma LateStill(g: Graph, log: seq<nat>, stack: seq<nat>, r: nat)
    requires Late(g, log, stack + [r]) && Path(g, stack + [r])
    ensures Late(g, log + [r], stack)
  {
    var up, l := stack + [r], log + [r];
    assert up[|stack|] == r && r in up;
    forall q, x | q in l && x in stack && AliasOf(g, q, x) ensures Reaches(g, x, q) {
      var i :| 0 <= i < |stack| && stack[i] == x;
      assert up[i] == x && x in up;
      if q !in log {
        OnPath(g, up, x);
      }
    }
    forall i, j | 0 <= i < j < |l| && AliasOf(g, l[i], l[j]) ensures Reaches(g, l[j], l[i]) {
      assert l[i] == log[i] && l[i] in log;
    }
  }

  /** When all that the end of the path needs is made, the end may be run. */
  lemma InOrder(g: Graph, log: seq<nat>, up: seq<nat>)
    requires |up| > 0 && Path(g, up) && Ordered(g, log)
    requires forall x: nat :: Needs(g, up[|up| - 1], x) ==> x in log || x in up || Aliased(g, x)
    ensures Ordered(g, log + [up[|up| - 1]])
  {
    var r := up[|up| - 1];
    var l := log + [r];
    forall i: nat, x: nat | i < |l| && Needs(g, l[i], x)
      ensures Before(l, x, i) || Reaches(g, x, l[i]) || Aliased(g, x)
    {
      if i < |log| {
        assert l[..i] == log[..i];
        assert Before(log, x, i) || Reaches(g, x, log[i]) || Aliased(g, x);
      } else {
        assert l[..i] == log;
        if x in up {
          OnPath(g, up, x);
        }
      }
    }
  }

  lemma Shorter(g: Graph, p: seq<nat>, r: nat)
    requires Path(g, p + [r]) && Distinct(p + [r])
    ensures Path(g, p) && Distinct(p) && r !in p
    ensures forall x :: x in p ==> x in p + [r]
  {
    var q := p + [r];
    assert forall i :: 0 <= i < |p| ==> q[i] == p[i];
    assert q[|p|] == r;
    forall i | 0 < i < |p| ensures Needs(g, p[i - 1], p[i]) {
      assert (p + [r])[i - 1] == p[i - 1] && (p + [r])[i] == p[i];
    }
  }

  /** From a rule on a path the end is reached. */
  lemma OnPath(g: Graph, p: seq<nat>, x: nat)
    requires Path(g, p) && x in p
    ensures Reaches(g, x, p[|p| - 1])
  {
    var i :| 0 <= i < |p| && p[i] == x;
    assert Leads(g, p[i..], x, p[|p| - 1]);
  }
}
