/**
 onematch, grpmatch, strgrpmatch and strmatch (src/cmd/3d/strmatch.c:257-810), with the
 flags of strmatch: maximal, anchored on both sides.  Back references are not modelled, so
 of the group offsets nothing is kept; what is kept are the places where a match ends.
 */
module StrMatch {
  import opened Pattern
  import opened PatternText
  import opened Gobble
  import opened Brackets
  import opened MatchSteps

  class Match {
    const str: string
    const pat: string
    // where the last match ended, in the string and in the pattern, and the farthest place
    // at which the whole pattern was used up, or -1
    var nextS: nat
    var nextP: nat
    var best: int

    constructor (str: string, pat: string)
      ensures this.str == str && this.pat == pat && best == -1
    {
      this.str, this.pat := str, pat;
      nextS, nextP, best := 0, 0, -1;
    }

    predicate Strings() {
      CString(str) && CString(pat)
    }

    /** The farthest end changes only at the end of the pattern, and does not become the end
        of the string unless the match succeeds. */
    twostate predicate BestKept(end: nat, ok: bool)
      reads this
    {
      && (At(pat, end) != '\0' ==> best == old(best))
      && (!ok && old(best) != |str| ==> best != |str|)
    }

    /** onematch: one sequence of items at p against the string from s to e; r is the start of
        a group that is being repeated, or -1. */
    method OneMatch(s0: nat, p0: nat, e: nat, r: int, ghost x0: Pat) returns (ok: bool)
      requires Strings() && s0 <= e <= |str| && AtPat(pat, p0, x0) && r <= p0
      modifies this
      ensures ok <==> MatchPat(str, Again(x0, r == p0), s0, e)
      ensures ok ==> nextS == e && nextP == p0 + |PatText(x0)|
      ensures BestKept(p0 + |PatText(x0)|, ok)
      decreases e - s0, |pat| - p0, if r == p0 then 0 else 1, 1
    {
      hide AtPat, MatchPat, Stands, PatText, IsTerm, ItemText, Takes;
      var s, p := s0, p0;
      ghost var x, end := x0, p0 + |PatText(x0)|;
      while true
        invariant s0 <= s <= e && p0 <= p && (s == s0 ==> p == p0) && (p == p0 ==> s == s0 && x == x0)
        invariant AtPat(pat, p, x) && p + |PatText(x)| == end
        invariant MatchPat(str, Again(x0, r == p0), s0, e) <==> MatchPat(str, Again(x, r == p), s, e)
        invariant nextS == old(nextS) && nextP == old(nextP) && best == old(best)
        decreases e - s
      {
        var sc := if s < e then str[s] else '\0';
        var pc := At(pat, p);
        if IsTerm(pc) {
          ok := Terminator(s, p, e, x);
          EndMeans(str, s, e);
          return;
        }
        if x.End? {
          PatEnd(pat, p);
        }
        ghost var y, rest := x.item, x.rest;
        NextItem(pat, p, y, rest);
        ItemReads(pat, p, y, rest);
        var q := p + 1;
        if pc == '(' || (OpensGroup(pc) && At(pat, q) == '(') {
          ok := GroupMatch(s, p, e, r, x);
          return;
        } else if pc == '*' {
          ok := StarMatch(s, q, e, rest);
          return;
        }
        OneCharMeans(str, y, rest, s, e);
        ok, q := TakeOne(s, p, e, y, rest);
        if !ok || s == e {
          return false;
        }
        s, p, x := s + 1, q, rest;
      }
    }

    /** An item that takes one character: a bracket, an escaped character, ? or a literal. */
    method TakeOne(s: nat, p: nat, e: nat, ghost y: Item, ghost rest: Pat) returns (ok: bool, q: nat)
      requires Strings() && s <= e <= |str| && AtPat(pat, p, Cons(y, rest)) && (y.Lit? || y.Any? || y.Bracket?)
      ensures ok && s < e <==> s < e && MatchItem(str, y, s, s + 1)
      ensures ok && s < e ==> q == p + |ItemText(y)|
    {
      hide AtPat, PatText, Remaining, InElems, Body, BodyOk;
      NextItem(pat, p, y, rest);
      ItemReads(pat, p, y, rest);
      var sc := if s < e then str[s] else '\0';
      var pc := At(pat, p);
      q := p + 1;
      if pc == '[' {
        if sc == '\0' {
          return false, q;
        }
        BracketMeans(pat, p, y.neg, y.elems, sc);
        ok, q := MatchBracket(pat, q, sc);
      } else if pc == '\\' {
        pc := At(pat, q);
        q := q + 1;
        ok := pc == sc;
      } else {
        ok := pc == '?' || pc == sc;
      }
    }

    /** The end of a sequence of items. */
    method Terminator(s: nat, p: nat, e: nat, ghost x: Pat) returns (ok: bool)
      requires s <= e <= |str| && AtPat(pat, p, x) && IsTerm(At(pat, p))
      modifies this
      ensures x == End && PatText(x) == "" && ok == (s == e)
      ensures ok ==> nextS == e && nextP == p
      ensures BestKept(p, ok)
    {
      if x.Cons? {
        ItemReads(pat, p, x.item, x.rest);
      }
      if s == e {
        nextS, nextP := s, p;
      }
      if At(pat, p) == '\0' && (best < 0 || s > best) {
        best := s;
      }
      return s == e;
    }

    /** A group: nothing of it, if it may be passed over; otherwise or else every part that it
        may take, shortest first, and the rest of the pattern behind it. */
    method GroupMatch(s: nat, p: nat, e: nat, r: int, ghost x: Pat) returns (ok: bool)
      requires Strings() && s <= e <= |str| && AtPat(pat, p, x) && r <= p
      requires x.Cons? && x.item.Sub? && Reads(pat, p, x.item)
      modifies this
      ensures ok <==> MatchPat(str, Again(x, r == p), s, e)
      ensures ok ==> nextS == e && nextP == p + |PatText(x)|
      ensures BestKept(p + |PatText(x)|, ok)
      decreases e - s, |pat| - p, if r == p then 0 else 1, 0
    {
      hide AtPat, AtAlts, MatchPat, Stands, PatText, IsTerm, ItemText, AltsText, Takes, TakesFrom, Scan;
      ghost var op, a, rest, end := x.item.op, x.item.alts, x.rest, p + |PatText(x)|;
      NextItem(pat, p, x.item, rest);
      InsideGroup(pat, p, op, a, rest);
      GroupMeans(str, op, a, rest, s, e, r == p);
      var pc := At(pat, p);
      var subp := if pc == '(' then p + 1 else p + 2;
      var found := Gobble.Gobble(pat, subp, '\0');
      if found.None? {
        return false;
      }
      var q := found.value;
      var k := s;
      if pc == '*' || pc == '?' || (pc == '+' && p == r) {
        ok := OneMatch(s, q, e, -1, rest);
        if ok {
          return;
        }
        if s == e {
          NowhereLeft(str, op, a, rest, s, s + 1, e);
          return false;
        }
        k := s + 1;
      }
      ghost var from := k;
      var next := if pc == '*' || pc == '+' then p else q;
      while true
        invariant s <= from <= k <= e
        invariant TakesFrom(str, op, a, rest, s, from, e) <==> TakesFrom(str, op, a, rest, s, k, e)
        invariant At(pat, end) != '\0' ==> best == old(best)
        invariant old(best) != |str| ==> best != |str|
        decreases e - k
      {
        TakesNext(str, op, a, rest, s, k, e);
        ok := GroupTakes(s, subp, k, pc != '!', op, a);
        if ok {
          ok := OneMatch(k, next, e, p, if next == p then x else rest);
          if ok {
            return;
          }
        }
        if k == e {
          NowhereLeft(str, op, a, rest, s, k + 1, e);
          return false;
        }
        k := k + 1;
      }
    }

    /** Whether a group takes the part from s to e. */
    method GroupTakes(s: nat, p: nat, e: nat, wanted: bool, ghost op: Op, ghost a: Alts) returns (ok: bool)
      requires Strings() && s <= e <= |str| && AtAlts(pat, p, a) && At(pat, p + |AltsText(a)|) == ')'
        && (wanted <==> op != Not)
      modifies this
      ensures ok <==> Takes(str, op, a, s, e)
      ensures best == old(best)
      decreases e - s, |pat| - p, 3, 1
    {
      hide AtAlts, AltsText, MatchAlts;
      ok := GrpMatch(s, p, e, a);
      ok := ok == wanted;
    }

    /** A star: the rest is tried at every place, but where it starts with a literal only at
        the places where that literal stands. */
    method StarMatch(s0: nat, p0: nat, e: nat, ghost rest0: Pat) returns (ok: bool)
      requires Strings() && s0 <= e <= |str| && AtPat(pat, p0, rest0)
      modifies this
      ensures ok <==> MatchPat(str, Cons(Star, rest0), s0, e)
      ensures ok ==> nextS == e && nextP == p0 + |PatText(rest0)|
      ensures BestKept(p0 + |PatText(rest0)|, ok)
      decreases e - s0, |pat| - p0, 2, 0
    {
      hide AtPat, MatchPat, Stands, PatText, ItemText, MatchesFrom;
      var p := p0;
      ghost var rest, end := rest0, p0 + |PatText(rest0)|;
      while At(pat, p) == '*' && At(pat, p + 1) != '('
        invariant p0 <= p && AtPat(pat, p, rest) && p + |PatText(rest)| == end
        invariant MatchPat(str, Cons(Star, rest0), s0, e) <==> MatchPat(str, Cons(Star, rest), s0, e)
        invariant best == old(best)
        decreases |pat| - p
      {
        FirstItem(p, rest);
        StarStar(str, rest.rest, s0, e);
        rest := rest.rest;
        p := p + 1;
      }
      FirstItem(p, rest);
      var pc := At(pat, p);
      if IsTerm(pc) {
        LastStar(s0, p, e, rest);
        return true;
      }
      var n := pc == '(' || pc == '[' || pc == '?' || pc == '*' || (OpensGroup(pc) && At(pat, p + 1) == '(');
      if pc == '\\' {
        pc := At(pat, p + 1);
        if pc == '\0' {
          return false;
        }
      }
      var s := s0;
      StarFrom(str, rest, s0, e);
      while true
        invariant s0 <= s <= e
        invariant MatchPat(str, Cons(Star, rest0), s0, e) <==> MatchesFrom(str, rest, s, e)
        invariant At(pat, end) != '\0' ==> best == old(best)
        invariant old(best) != |str| ==> best != |str|
        decreases e - s
      {
        MatchesNext(str, rest, s, e);
        var sc := if s < e then str[s] else '\0';
        if n || pc == sc {
          ok := OneMatch(s, p, e, -1, rest);
          if ok {
            return;
          }
        } else {
          OneCharMeans(str, rest.item, rest.rest, s, e);
        }
        if sc == '\0' {
          MatchesNowhere(str, rest, s + 1, e);
          return false;
        }
        s := s + 1;
      }
    }

    /** What the first characters of the text tell about the pattern that stands there. */
    lemma FirstItem(p: nat, x: Pat)
      requires AtPat(pat, p, x)
      ensures IsTerm(At(pat, p)) <==> x.End?
      ensures x.Cons? ==> Reads(pat, p, x.item) && p < |pat| && AtPat(pat, p + |ItemText(x.item)|, x.rest)
      ensures x.Cons? ==> |PatText(x)| == |ItemText(x.item)| + |PatText(x.rest)|
      ensures x.Cons? && x.item.Star? ==> |ItemText(x.item)| == 1
      ensures x.End? ==> PatText(x) == ""
    {
      hide AtPat, ItemText;
      if x.Cons? {
        NextItem(pat, p, x.item, x.rest);
        ItemReads(pat, p, x.item, x.rest);
      } else {
        PatEnd(pat, p);
      }
    }

    /** A star at the end of a sequence takes all there is. */
    method LastStar(s: nat, p: nat, e: nat, ghost rest: Pat)
      requires s <= e <= |str| && rest == End
      modifies this
      ensures MatchPat(str, Cons(Star, rest), s, e) && nextS == e && nextP == p
      ensures BestKept(p, true)
    {
      LastStarMeans(str, s, e);
      nextS, nextP := e, p;
      if At(pat, p) == '\0' && (best < 0 || e > best) {
        best := e;
      }
    }

    /** The sequences joined by &, all of which have to match. */
    method ConjMatch(s: nat, p0: nat, e: nat, ghost c0: Conj) returns (ok: bool)
      requires Strings() && s <= e <= |str| && AtConj(pat, p0, c0)
      modifies this
      ensures ok <==> MatchConj(str, c0, s, e)
      ensures ok ==> nextS == e
      ensures BestKept(p0 + |ConjText(c0)|, ok)
      decreases e - s, |pat| - p0, 2, 0
    {
      hide AtPat, AtConj, MatchPat, PatText, ConjText, IsTerm;
      var p := p0;
      ghost var c, end := c0, p0 + |ConjText(c0)|;
      while true
        invariant p0 <= p && AtConj(pat, p, c) && p + |ConjText(c)| == end
        invariant MatchConj(str, c0, s, e) <==> MatchConj(str, c, s, e)
        invariant BestKept(end, false)
        decreases |ConjText(c)|
      {
        FirstOfConj(pat, p, c);
        ok := OneMatch(s, p, e, -1, c.p);
        if !ok {
          return;
        }
        p := nextP;
        if At(pat, p) != '&' {
          return true;
        }
        p := p + 1;
        c := c.more;
      }
    }

    /** grpmatch: the alternatives at p. */
    method GrpMatch(s: nat, p0: nat, e: nat, ghost a0: Alts) returns (ok: bool)
      requires Strings() && s <= e <= |str| && AtAlts(pat, p0, a0)
      modifies this
      ensures ok <==> MatchAlts(str, a0, s, e)
      ensures ok ==> nextS == e
      ensures BestKept(p0 + |AltsText(a0)|, ok)
      decreases e - s, |pat| - p0, 3, 0
    {
      hide AtAlts, AtConj, MatchConj, AltsText, ConjText, Scan;
      var p := p0;
      ghost var a, end := a0, p0 + |AltsText(a0)|;
      while true
        invariant p0 <= p && AtAlts(pat, p, a) && p + |AltsText(a)| == end
        invariant MatchAlts(str, a0, s, e) <==> MatchAlts(str, a, s, e)
        invariant BestKept(end, false)
        decreases |AltsText(a)|
      {
        FirstOfAlts(pat, p, a);
        ok := ConjMatch(s, p, e, a.c);
        if ok {
          return;
        }
        var found := Gobble.Gobble(pat, p, '|');
        if found.None? {
          return false;
        }
        p := found.value;
        a := a.more;
      }
    }

    /** strgrpmatch without offsets: the whole string must match, so a match that ends earlier,
        which best may record, does not count. */
    method StrGrpMatch(ghost a: Alts) returns (ok: bool)
      requires Strings() && pat == AltsText(a) && AltsOk(a) && best == -1
      modifies this
      ensures ok <==> Matches(str, a)
    {
      assert pat[0..0 + |pat|] == pat;
      var i := GrpMatch(0, 0, |str|, a);
      if !i && best < 0 {
        return false;
      }
      var end := if i then nextS else best;
      return end == |str|;
    }
  }

  /** strmatch: the string is in the language of the pattern. */
  method StrMatch(str: string, pat: string, ghost a: Alts) returns (ok: bool)
    requires CString(str) && CString(pat) && AltsOk(a) && pat == AltsText(a)
    ensures ok <==> Matches(str, a)
  {
    var m := new Match(str, pat);
    ok := m.StrGrpMatch(a);
  }
}
