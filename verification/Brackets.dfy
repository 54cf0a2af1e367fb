/**
 Matching a character against a bracket (src/cmd/3d/strmatch.c:456-694), read character by
 character from the pattern text; classes and collating elements are not modelled.
 */
module Brackets {
  import opened Pattern
  import opened PatternText
  import opened Gobble
  import opened Wrappers

  datatype Outcome = Broken | Ends(ok: bool, p: nat)

  /** The rest of a bracket: n tells whether anything has been read, ok whether sc was found
      already, range is where the start of a pending range is, or -1. */
  function Remaining(t: string, p: nat, sc: char, n: bool, ok: bool, range: int): Outcome
    requires range < |t|
    decreases |t| - p
  {
    if p >= |t| then Broken
    else if t[p] == ']' && n then Ends(ok, p + 1)
    else
      var at := if t[p] == '\\' then p + 1 else p;
      if at >= |t| then Broken
      else
        var c, q := t[at], at + 1;
        var dash := At(t, q) == '-' && At(t, q + 1) != ']';
        if ok then Remaining(t, q, sc, n, ok, range)
        else if range >= 0 then
          var hit := sc == t[range] || sc == c || t[range] < sc < c;
          if dash then Remaining(t, q + 1, sc, true, hit, at) else Remaining(t, q, sc, true, hit, -1)
        else if dash then Remaining(t, q + 1, sc, true, false, at)
        else Remaining(t, q, sc, true, sc == c, -1)
  }

  /** The bracket loop of onematch, from just behind the opening bracket. */
  method MatchBracket(t: string, from: nat, sc: char) returns (r: bool, p: nat)
    requires CString(t) && from <= |t|
    ensures var k := if At(t, from) == '!' then from + 1 else from;
            var e := Remaining(t, k, sc, false, false, -1);
            r <==> e.Ends? && e.ok != (At(t, from) == '!')
    ensures var k := if At(t, from) == '!' then from + 1 else from;
            r ==> p == Remaining(t, k, sc, false, false, -1).p && from < p
  {
    p := from;
    var invert := At(t, p) == '!';
    if invert {
      p := p + 1;
    }
    ghost var k := p;
    var n, ok, range: int := false, false, -1;
    while true
      invariant k <= p && -1 <= range < |t|
      invariant Remaining(t, k, sc, false, false, -1) == Remaining(t, p, sc, n, ok, range)
      decreases |t| + 2 - p
    {
      var oldp, pc := p, At(t, p);
      p := p + 1;
      if pc == '\0' {
        return false, p;
      } else if pc == ']' && n {
        return ok != invert, p;
      }
      if pc == '\\' {
        oldp, pc := p, At(t, p);
        p := p + 1;
        if pc == '\0' {
          return false, p;
        }
      }
      if ok {
      } else if range >= 0 {
        var x := t[range];
        if sc == x || sc == pc || x < sc < pc {
          ok := true;
        }
        if At(t, p) == '-' && At(t, p + 1) != ']' {
          p := p + 1;
          range := oldp;
        } else {
          range := -1;
        }
        n := true;
      } else if At(t, p) == '-' && At(t, p + 1) != ']' {
        p := p + 1;
        range := oldp;
        n := true;
      } else {
        if sc == pc {
          ok := true;
        }
        n := true;
      }
    }
  }

  // ------------------------------------------------------- against the meaning

  /** No range starts with what stands before j. */
  predicate NoRange(t: string, j: nat) {
    !(At(t, j) == '-' && At(t, j + 1) != ']')
  }

  /** Once the character was found a pending range does not matter. */
  lemma {:induction false} FoundAnyway(t: string, p: nat, sc: char, range: int)
    requires range < |t|
    ensures Remaining(t, p, sc, true, true, range) == Remaining(t, p, sc, true, true, -1)
    decreases |t| - p
  {
    if p < |t| && t[p] != ']' {
      var at := if t[p] == '\\' then p + 1 else p;
      FoundAnyway(t, at + 1, sc, range);
    }
  }

  /** Once the character was found the rest of the bracket is only skipped. */
  lemma {:induction false} FoundChars(t: string, i: nat, xs: seq<SetChar>, m: nat, sc: char)
    requires 0 < m && Holds(t, i, xs, m)
    ensures Remaining(t, i, sc, true, true, -1) == Ends(true, i + |CharsText(xs[m..])| + 1)
    decreases |xs| - m
  {
    if m < |xs| {
      CharReads(t, i, xs, m);
      CharsFirst(t, i, xs, m);
      assert FlatOk(xs, m);
      hide Holds;
      FoundChars(t, i + |CharText(xs[m])|, xs, m + 1, sc);
    } else {
      assert CharsText(xs[m..]) + "]" == "]";
      FirstStands(t, i, "]");
    }
  }

  /** One character that is not the start of a range. */
  lemma TryChar(t: string, i: nat, xs: seq<SetChar>, m: nat, sc: char)
    requires m < |xs| && Holds(t, i, xs, m) && NoRange(t, i + |CharText(xs[m])|)
    ensures Remaining(t, i, sc, m > 0, false, -1) == Remaining(t, i + |CharText(xs[m])|, sc, true, sc == xs[m].c, -1)
  {
    CharReads(t, i, xs, m);
    assert FlatOk(xs, m);
    hide Holds;
  }

  /** One character that is the start of a range. */
  lemma TryLow(t: string, i: nat, xs: seq<SetChar>, m: nat, sc: char)
    requires m < |xs| && Holds(t, i, xs, m) && !NoRange(t, i + |CharText(xs[m])|)
    ensures var j := i + |CharText(xs[m])|;
            && j <= |t| && t[j - 1] == xs[m].c
            && Remaining(t, i, sc, m > 0, false, -1) == Remaining(t, j + 1, sc, true, false, j - 1)
  {
    CharReads(t, i, xs, m);
    assert FlatOk(xs, m);
    hide Holds;
  }

  /** The end of a range, which may be the start of another. */
  lemma TryHigh(t: string, i: nat, xs: seq<SetChar>, m: nat, sc: char, range: nat)
    requires 0 < m < |xs| && Holds(t, i, xs, m) && range < |t|
    ensures var j, hit := i + |CharText(xs[m])|, InRange(t[range], xs[m].c, sc);
            && j <= |t| && t[j - 1] == xs[m].c
            && Remaining(t, i, sc, true, false, range)
               == if NoRange(t, j) then Remaining(t, j, sc, true, hit, -1)
                 else Remaining(t, j + 1, sc, true, hit, j - 1)
  {
    CharReads(t, i, xs, m);
    assert FlatOk(xs, m);
    hide Holds;
  }

  /** Dashes start elements only where they are read so: at the start of the bracket or at its end. */
  predicate Starts(elems: seq<Elem>, front: bool) {
    forall i :: 0 <= i < |elems| && elems[i].first == DASH ==>
      (front && i == 0) || (i == |elems| - 1 && elems[i].more == [])
  }

  /** Behind an element no range starts. */
  lemma Apart(t: string, i: nat, xs: seq<SetChar>, m: nat, elems: seq<Elem>)
    requires m < |xs| && Holds(t, i, xs, m) && xs[m + 1..] == Flat(elems) && Starts(elems, false)
    ensures NoRange(t, i + |CharText(xs[m])|)
  {
    CharReads(t, i, xs, m);
    if elems != [] {
      assert xs[m + 1] == xs[m + 1..][0] == elems[0].first;
      if elems[0].first == DASH {
        assert Flat(elems) == [DASH];
        CharsFirst(t, i, xs, m);
        CharReads(t, i + |CharText(xs[m])|, xs, m + 1);
      }
    }
  }

  /** Behind a joining dash the range starts. */
  lemma Joint(t: string, i: nat, xs: seq<SetChar>, m: nat)
    requires m + 2 < |xs| && Holds(t, i, xs, m) && xs[m + 1] == DASH
    ensures var j := i + |CharText(xs[m])|; !NoRange(t, j) && Holds(t, j + 1, xs, m + 2)
    ensures |CharsText(xs[m..])| == |CharText(xs[m])| + 1 + |CharsText(xs[m + 2..])|
  {
    var j := i + |CharText(xs[m])|;
    CharReads(t, i, xs, m);
    CharsFirst(t, i, xs, m);
    CharReads(t, j, xs, m + 1);
    CharsFirst(t, j, xs, m + 1);
    assert FlatOk(xs, m + 2);
  }

  /** All elements up to the closing bracket. */
  lemma {:induction false} TryElems(t: string, i: nat, xs: seq<SetChar>, m: nat, elems: seq<Elem>, sc: char)
    requires m <= |xs| && Holds(t, i, xs, m) && xs[m..] == Flat(elems)
    requires Starts(elems, m == 0) && (m == 0 ==> elems != [])
    ensures Remaining(t, i, sc, m > 0, false, -1) == Ends(InElems(elems, sc), i + |CharsText(xs[m..])| + 1)
    decreases |xs| - m
  {
    hide Holds, Remaining, InElems, InElem, CharsText, NoRange;
    if elems == [] {
      NoElems(t, i, xs, m, elems, sc);
    } else {
      var e, rest := elems[0], elems[1..];
      FirstElem(xs, m, elems);
      StartsBehind(elems, m == 0);
      InElemsFirst(elems, sc);
      ElemMeans(e, sc);
      var j := i + |CharText(xs[m])|;
      if e.more == [] {
        Apart(t, i, xs, m, rest);
        CharsFirst(t, i, xs, m);
        TryChar(t, i, xs, m, sc);
        if sc == xs[m].c {
          FoundChars(t, j, xs, m + 1, sc);
        } else {
          TryElems(t, j, xs, m + 1, rest, sc);
        }
      } else {
        Joint(t, i, xs, m);
        TryLow(t, i, xs, m, sc);
        TryRanges(t, j + 1, xs, m + 2, e.first, e.more, rest, sc, j - 1);
      }
    }
  }

  /** The ranges of an element, from the end of the first on, and the elements behind it. */
  lemma {:induction false} TryRanges(t: string, i: nat, xs: seq<SetChar>, m: nat, lo: SetChar, more: seq<SetChar>,
                                     elems: seq<Elem>, sc: char, range: nat)
    requires 0 < m <= |xs| && Holds(t, i, xs, m) && more != [] && Starts(elems, false)
    requires xs[m..] == [more[0]] + Joined(more[1..]) + Flat(elems) && range < |t| && t[range] == lo.c
    ensures Remaining(t, i, sc, true, false, range)
            == Ends(InRanges(lo, more, sc) || InElems(elems, sc), i + |CharsText(xs[m..])| + 1)
    decreases |xs| - m
  {
    hide Holds, Remaining, InElems, CharsText, NoRange, InRange;
    NextRange(xs, m, more, elems);
    var j := i + |CharText(xs[m])|;
    TryHigh(t, i, xs, m, sc, range);
    if |more| == 1 {
      Apart(t, i, xs, m, elems);
      CharsFirst(t, i, xs, m);
      if InRange(lo.c, xs[m].c, sc) {
        FoundChars(t, j, xs, m + 1, sc);
      } else {
        TryElems(t, j, xs, m + 1, elems, sc);
      }
    } else {
      Joint(t, i, xs, m);
      if InRange(lo.c, xs[m].c, sc) {
        FoundAnyway(t, j + 1, sc, j - 1);
        FoundChars(t, j + 1, xs, m + 2, sc);
      } else {
        TryRanges(t, j + 1, xs, m + 2, more[0], more[1..], elems, sc, j - 1);
      }
    }
  }

  lemma NoElems(t: string, i: nat, xs: seq<SetChar>, m: nat, elems: seq<Elem>, sc: char)
    requires Holds(t, i, xs, m) && xs[m..] == Flat(elems) && elems == [] && m > 0
    ensures Remaining(t, i, sc, true, false, -1) == Ends(InElems(elems, sc), i + |CharsText(xs[m..])| + 1)
  {
    assert CharsText(xs[m..]) + "]" == "]";
    FirstStands(t, i, "]");
  }

  lemma FirstElem(xs: seq<SetChar>, m: nat, elems: seq<Elem>)
    requires m <= |xs| && xs[m..] == Flat(elems) && elems != []
    ensures m < |xs| && xs[m] == elems[0].first
    ensures elems[0].more == [] ==> xs[m + 1..] == Flat(elems[1..])
    ensures var more := elems[0].more;
      more != [] ==>
        m + 2 < |xs| && xs[m + 1] == DASH && xs[m + 2..] == [more[0]] + Joined(more[1..]) + Flat(elems[1..])
  {
    hide CharText, Joined;
    var first, more, rest := elems[0].first, elems[0].more, Flat(elems[1..]);
    if more == [] {
      FlatOne(elems);
      Behind(xs, m, first, rest);
    } else {
      FlatFirst(elems);
      BehindDash(xs, m, first, more[0], Joined(more[1..]) + rest);
    }
  }

  lemma FlatOne(elems: seq<Elem>)
    requires elems != [] && elems[0].more == []
    ensures Flat(elems) == [elems[0].first] + Flat(elems[1..])
  {
    assert [elems[0].first] + Joined(elems[0].more) == [elems[0].first];
  }

  lemma ThreeFirst(a: SetChar, b: SetChar, xs: seq<SetChar>, ys: seq<SetChar>)
    ensures ([a] + ([DASH, b] + xs)) + ys == [a, DASH, b] + (xs + ys)
  {
  }

  lemma FlatFirst(elems: seq<Elem>)
    requires elems != [] && elems[0].more != []
    ensures var more := elems[0].more;
      Flat(elems) == [elems[0].first, DASH, more[0]] + (Joined(more[1..]) + Flat(elems[1..]))
  {
    var e := elems[0];
    ThreeFirst(e.first, e.more[0], Joined(e.more[1..]), Flat(elems[1..]));
  }

  lemma Behind(xs: seq<SetChar>, m: nat, x: SetChar, rest: seq<SetChar>)
    requires m <= |xs| && xs[m..] == [x] + rest
    ensures m < |xs| && xs[m] == x && xs[m + 1..] == rest
  {
    assert xs[m] == xs[m..][0] && xs[m..][1..] == xs[m + 1..];
  }

  lemma BehindDash(xs: seq<SetChar>, m: nat, x: SetChar, y: SetChar, rest: seq<SetChar>)
    requires m <= |xs| && xs[m..] == [x, DASH, y] + rest
    ensures m + 2 < |xs| && xs[m] == x && xs[m + 1] == DASH && xs[m + 2..] == [y] + rest
  {
    Behind(xs, m, x, [DASH, y] + rest);
    Behind(xs, m + 1, DASH, [y] + rest);
  }

  lemma StartsBehind(elems: seq<Elem>, front: bool)
    requires Starts(elems, front) && elems != []
    ensures Starts(elems[1..], false)
  {
    assert forall i :: 0 <= i < |elems| - 1 ==> elems[1..][i] == elems[i + 1];
  }

  lemma NextRange(xs: seq<SetChar>, m: nat, more: seq<SetChar>, elems: seq<Elem>)
    requires m <= |xs| && more != [] && xs[m..] == [more[0]] + Joined(more[1..]) + Flat(elems)
    ensures m < |xs| && xs[m] == more[0]
    ensures |more| == 1 ==> xs[m + 1..] == Flat(elems)
    ensures |more| > 1 ==>
      m + 2 < |xs| && xs[m + 1] == DASH && xs[m + 2..] == [more[1]] + Joined(more[1..][1..]) + Flat(elems)
  {
    hide Flat;
    if |more| == 1 {
      assert [more[0]] + Joined(more[1..]) + Flat(elems) == [more[0]] + Flat(elems);
      Behind(xs, m, more[0], Flat(elems));
    } else {
      var rest := Joined(more[1..][1..]) + Flat(elems);
      assert [more[0]] + Joined(more[1..]) + Flat(elems) == [more[0], DASH, more[1]] + rest;
      BehindDash(xs, m, more[0], more[1], rest);
    }
  }

  lemma ElemMeans(e: Elem, c: char)
    ensures e.more == [] ==> (InElem(e, c) <==> c == e.first.c)
    ensures e.more != [] ==> (InElem(e, c) <==> InRanges(e.first, e.more, c))
  {
  }

  lemma InElemsFirst(elems: seq<Elem>, c: char)
    requires elems != []
    ensures InElems(elems, c) <==> InElem(elems[0], c) || InElems(elems[1..], c)
  {
    if i :| 0 <= i < |elems| && InElem(elems[i], c) {
      assert i > 0 ==> elems[1..][i - 1] == elems[i];
    }
    if i :| 0 <= i < |elems| - 1 && InElem(elems[1..][i], c) {
      assert elems[1..][i] == elems[i + 1];
    }
  }

  /** The bracket code agrees with the meaning of a bracket. */
  lemma BracketMeans(t: string, i: nat, neg: bool, elems: seq<Elem>, sc: char)
    requires CString(t) && BodyOk(neg, elems) && Stands(t, i, ItemText(Bracket(neg, elems)))
    ensures At(t, i) == '[' && (At(t, i + 1) == '!' <==> neg)
    ensures var e := Remaining(t, i + |Opening(neg)|, sc, false, false, -1);
            && e.Ends? && e.p == i + |ItemText(Bracket(neg, elems))|
            && (e.ok != neg <==> InBracket(neg, elems, sc))
  {
    BodyStands(t, i, neg, elems);
    OpeningStands(t, i, neg);
    StartsAll(neg, elems);
    hide BodyOk, Remaining, InElems, Stands, Holds;
    assert Flat(elems)[0..] == Flat(elems);
    TryElems(t, i + |Opening(neg)|, Flat(elems), 0, elems, sc);
  }

  lemma StartsAll(neg: bool, elems: seq<Elem>)
    requires BodyOk(neg, elems)
    ensures Starts(elems, true) && elems != []
  {
    forall i | 0 <= i < |elems| && elems[i].first == DASH
      ensures i == 0 || (i == |elems| - 1 && elems[i].more == [])
    {
      assert StartsOk(elems, i);
    }
  }

  lemma OpeningStands(t: string, i: nat, neg: bool)
    requires Stands(t, i, Opening(neg))
    ensures At(t, i) == '[' && (neg ==> At(t, i + 1) == '!')
  {
    var u := Opening(neg);
    assert t[i] == t[i..i + |u|][0];
    if neg {
      assert t[i + 1] == t[i..i + |u|][1];
    }
  }

  // ------------------------------------------------------- every set is written

  /** The characters of a set from p on, up to the bracket that closes it. */
  function Tokens(t: string, p: nat, n: bool): Option<seq<SetChar>>
    decreases |t| - p
  {
    if p >= |t| then None
    else if t[p] == ']' && n then Some([])
    else if t[p] == '\\' then (if p + 1 < |t| then More(SetChar(t[p + 1], true), Tokens(t, p + 2, true)) else None)
    else More(SetChar(t[p], false), Tokens(t, p + 1, true))
  }

  function More(x: SetChar, rest: Option<seq<SetChar>>): Option<seq<SetChar>> {
    if rest.Some? then Some([x] + rest.value) else None
  }

  /** The elements that characters make: a dash between two others joins them. */
  function Group(xs: seq<SetChar>): (r: seq<Elem>)
    ensures xs != [] ==> r != [] && r[0].first == xs[0]
    decreases |xs|
  {
    if xs == [] then []
    else if |xs| >= 3 && xs[1] == DASH then
      var g := Group(xs[2..]);
      [Elem(xs[0], [g[0].first] + g[0].more)] + g[1..]
    else [Elem(xs[0], [])] + Group(xs[1..])
  }

  lemma ChainFlat(x: SetChar, g: seq<Elem>)
    requires g != []
    ensures Flat([Elem(x, [g[0].first] + g[0].more)] + g[1..]) == [x, DASH] + Flat(g)
  {
    hide Flat, Joined;
    var e := Elem(x, [g[0].first] + g[0].more);
    var r := [e] + g[1..];
    assert r[1..] == g[1..] && e.more[1..] == g[0].more;
    FlatAny(g);
    FlatFirst(r);
    Regrouped(x, g[0].first, Joined(g[0].more), Flat(g[1..]));
  }

  lemma FlatAny(g: seq<Elem>)
    requires g != []
    ensures Flat(g) == [g[0].first] + Joined(g[0].more) + Flat(g[1..])
  {
  }

  lemma Regrouped(x: SetChar, y: SetChar, u: seq<SetChar>, v: seq<SetChar>)
    ensures [x, DASH, y] + (u + v) == [x, DASH] + ([y] + u + v)
  {
  }

  lemma ChainStarts(x: SetChar, g: seq<Elem>)
    requires g != [] && Starts(g, true)
    ensures Starts([Elem(x, [g[0].first] + g[0].more)] + g[1..], true)
  {
    var r := [Elem(x, [g[0].first] + g[0].more)] + g[1..];
    assert forall i :: 1 <= i < |r| ==> r[i] == g[i];
  }

  lemma OneStarts(x: SetChar, g: seq<Elem>)
    requires Starts(g, true) && (g != [] && g[0].first == DASH ==> |g| == 1 && g[0].more == [])
    ensures Starts([Elem(x, [])] + g, true)
  {
    var r := [Elem(x, [])] + g;
    assert forall i :: 1 <= i < |r| ==> r[i] == g[i - 1];
  }

  lemma {:induction false} GroupFlat(xs: seq<SetChar>)
    ensures Flat(Group(xs)) == xs && Starts(Group(xs), true)
    decreases |xs|
  {
    if xs == [] {
      assert Group(xs) == [];
    } else if |xs| >= 3 && xs[1] == DASH {
      hide Flat, Starts;
      GroupFlat(xs[2..]);
      ChainFlat(xs[0], Group(xs[2..]));
      ChainStarts(xs[0], Group(xs[2..]));
      assert xs == [xs[0], DASH] + xs[2..];
    } else {
      var g := Group(xs[1..]);
      hide Flat, Starts;
      GroupFlat(xs[1..]);
      if |xs| == 2 {
        assert g == [Elem(xs[1], [])];
      }
      OneStarts(xs[0], g);
      FlatOne([Elem(xs[0], [])] + g);
      assert ([Elem(xs[0], [])] + g)[1..] == g && xs == [xs[0]] + xs[1..];
    }
  }

  lemma {:induction false} TokensStand(t: string, p: nat, n: bool)
    requires CString(t) && Tokens(t, p, n).Some?
    ensures var xs := Tokens(t, p, n).value;
      && Stands(t, p, CharsText(xs) + "]") && (!n ==> xs != [])
      && forall k :: 0 <= k < |xs| ==> CharOk(xs[k]) && (Closes(xs[k]) ==> !n && k == 0)
    decreases |t| - p
  {
    hide CharText, Tokens, CharOk, Closes, CharsText, Stands;
    if FirstToken(t, p, n) {
      var x := if t[p] == '\\' then SetChar(At(t, p + 1), true) else SetChar(t[p], false);
      var q := if t[p] == '\\' then p + 2 else p + 1;
      TokenThere(t, p, n);
      TokensStand(t, q, true);
      CharsStand(t, p, x, Tokens(t, q, true).value);
      CharsMore(x, Tokens(t, q, true).value, n);
    } else {
      NoToken(t, p, n);
      LoneClose(t, p);
    }
  }

  predicate FirstToken(t: string, p: nat, n: bool) {
    p < |t| && !(t[p] == ']' && n)
  }

  lemma TokenThere(t: string, p: nat, n: bool)
    requires CString(t) && FirstToken(t, p, n) && Tokens(t, p, n).Some?
    ensures var x := if t[p] == '\\' then SetChar(At(t, p + 1), true) else SetChar(t[p], false);
      var q := if t[p] == '\\' then p + 2 else p + 1;
      && q <= |t| && q == p + |CharText(x)| && t[p..q] == CharText(x) && CharOk(x) && (Closes(x) ==> !n)
      && Tokens(t, q, true).Some? && Tokens(t, p, n).value == [x] + Tokens(t, q, true).value
      && (t[p] == '\\' ==> p + 1 < |t|)
  {
  }

  lemma NoToken(t: string, p: nat, n: bool)
    requires Tokens(t, p, n).Some? && !FirstToken(t, p, n)
    ensures p < |t| && t[p] == ']' && n && Tokens(t, p, n).value == []
  {
  }

  lemma CharsStand(t: string, p: nat, x: SetChar, ys: seq<SetChar>)
    requires var q := p + |CharText(x)|; q <= |t| && t[p..q] == CharText(x) && Stands(t, q, CharsText(ys) + "]")
    ensures Stands(t, p, CharsText([x] + ys) + "]")
  {
    assert ([x] + ys)[1..] == ys;
    assert CharsText([x] + ys) + "]" == CharText(x) + (CharsText(ys) + "]");
    StandsSplit(t, p, CharText(x), CharsText(ys) + "]");
  }

  lemma LoneClose(t: string, p: nat)
    requires p < |t| && t[p] == ']'
    ensures Stands(t, p, CharsText([]) + "]")
  {
    assert CharsText([]) + "]" == "]" && t[p..p + 1] == "]";
  }

  lemma CharsMore(x: SetChar, ys: seq<SetChar>, n: bool)
    requires CharOk(x) && (Closes(x) ==> !n) && forall k :: 0 <= k < |ys| ==> CharOk(ys[k]) && !Closes(ys[k])
    ensures var xs := [x] + ys; forall k :: 0 <= k < |xs| ==> CharOk(xs[k]) && (Closes(xs[k]) ==> !n && k == 0)
  {
    hide CharOk, Closes;
    assert forall k :: 1 <= k < |ys| + 1 ==> ([x] + ys)[k] == ys[k - 1];
  }

  /** No class or collating element starts among these characters. */
  predicate ClassFree(xs: seq<SetChar>) {
    forall k :: 0 <= k < |xs| - 1 && xs[k] == SetChar('[', false) ==> !Delimits(xs[k + 1])
  }

  /** Every set that is closed, and in which no class or collating element starts, is that of an item. */
  lemma EverySet(t: string, k: nat, neg: bool) returns (elems: seq<Elem>)
    requires CString(t) && Tokens(t, k, false).Some? && ClassFree(Tokens(t, k, false).value)
    requires neg || At(t, k) != '!'
    ensures BodyOk(neg, elems) && Stands(t, k, Body(elems) + "]")
  {
    var xs := Tokens(t, k, false).value;
    TokensStand(t, k, false);
    elems := Group(xs);
    GroupFlat(xs);
    assert xs[0] == SetChar('!', false) ==> At(t, k) == '!';
    forall i | 0 <= i < |elems| ensures StartsOk(elems, i) {
    }
  }
}
