/**
 The laws of the pattern language (src/cmd/3d/strmatch.c:20-59): what each construct matches, as a set of whole
 strings, and how it is written.
 */
module PatternLaws {
  import opened Pattern
  import opened PatternText

  /** A single item, and a single sequence, as a pattern. */
  function One(x: Item): Alts {
    Only(Just(Cons(x, End)))
  }

  function Seq(p: Pat): Alts {
    Only(Just(p))
  }

  // What a part of a string matches does not depend on where it stands.

  ghost predicate Same(s: string, i: nat, j: nat, t: string, m: nat) {
    i <= j <= |s| && m + (j - i) <= |t| && s[i..j] == t[m..m + (j - i)]
  }

  lemma SameParts(s: string, i: nat, j: nat, t: string, m: nat, k: nat)
    requires Same(s, i, j, t, m) && i <= k <= j
    ensures Same(s, i, k, t, m) && Same(s, k, j, t, m + (k - i)) && Same(t, m, m + (j - i), s, i)
  {
    assert s[i..k] == s[i..j][..k - i] && s[k..j] == s[i..j][k - i..];
    assert t[m..m + (k - i)] == t[m..m + (j - i)][..k - i];
    assert t[m + (k - i)..m + (j - i)] == t[m..m + (j - i)][k - i..];
  }

  function Shifted(cuts: seq<nat>, i: nat, m: nat): (r: seq<nat>)
    requires forall l :: 0 <= l < |cuts| ==> cuts[l] >= i
    ensures |r| == |cuts| && forall l :: 0 <= l < |r| ==> r[l] == cuts[l] - i + m
  {
    seq(|cuts|, l requires 0 <= l < |cuts| => cuts[l] - i + m)
  }

  lemma {:induction false} LocalItem(s: string, x: Item, i: nat, j: nat, t: string, m: nat)
    requires Same(s, i, j, t, m) && MatchItem(s, x, i, j)
    ensures MatchItem(t, x, m, m + (j - i))
    decreases x, 0
  {
    SameParts(s, i, j, t, m, i);
    match x {
      case Lit(c, _) => assert s[i] == s[i..j][0];
      case Bracket(_, _) => assert s[i] == s[i..j][0];
      case Sub(op, a) =>
        if op == ZeroOrMore || op == OneOrMore {
          var cuts: seq<nat> :| Path(cuts, i, j) && MatchEach(s, a, cuts, j) && (op == OneOrMore ==> |cuts| > 1);
          var moved := Shifted(cuts, i, m);
          LocalEach(s, a, cuts, i, j, t, m);
          assert Path(moved, m, m + (j - i));
        } else if op == Not {
          if MatchAlts(t, a, m, m + (j - i)) {
            LocalAlts(t, a, m, m + (j - i), s, i);
          }
        } else if MatchAlts(s, a, i, j) {
          LocalAlts(s, a, i, j, t, m);
        }
      case _ =>
    }
  }

  lemma {:induction false} LocalEach(s: string, a: Alts, cuts: seq<nat>, i: nat, j: nat, t: string, m: nat)
    requires i <= j && Same(s, i, j, t, m) && Path(cuts, i, j) && MatchEach(s, a, cuts, j)
    ensures Path(Shifted(cuts, i, m), m, m + (j - i)) && MatchEach(t, a, Shifted(cuts, i, m), m + (j - i))
    decreases a, 1
  {
    hide MatchAlts, MatchEach, Path, Same, Shifted;
    ShiftedPath(cuts, i, j, m);
    SamePart(s, i, j, t, m, i, j);
    var moved := Shifted(cuts, i, m);
    forall l: nat | 0 < l < |cuts| ensures MatchesAt(t, a, moved, l) {
      CutsInside(cuts, i, j, l);
      EachAt(s, a, cuts, j, l);
      SamePart(s, i, j, t, m, cuts[l - 1], cuts[l]);
      LocalAlts(s, a, cuts[l - 1], cuts[l], t, moved[l - 1]);
    }
    EachIf(t, a, moved, m + (j - i));
  }

  lemma EachAt(s: string, a: Alts, cuts: seq<nat>, j: nat, l: nat)
    requires j <= |s| && |cuts| > 0 && Path(cuts, cuts[0], j) && MatchEach(s, a, cuts, j) && 0 < l < |cuts|
    ensures MatchesAt(s, a, cuts, l)
  {
    hide MatchAlts;
  }

  lemma EachIf(s: string, a: Alts, cuts: seq<nat>, j: nat)
    requires j <= |s| && |cuts| > 0 && Path(cuts, cuts[0], j)
    requires forall l: nat :: 0 < l < |cuts| ==> MatchesAt(s, a, cuts, l)
    ensures MatchEach(s, a, cuts, j)
  {
    hide MatchAlts;
    forall l {:trigger cuts[l]} | 0 < l < |cuts| ensures MatchAlts(s, a, cuts[l - 1], cuts[l]) {
      assert MatchesAt(s, a, cuts, l);
    }
  }

  ghost predicate MatchesAt(s: string, a: Alts, cuts: seq<nat>, l: nat) {
    0 < l < |cuts| && cuts[l - 1] <= cuts[l] <= |s| && MatchAlts(s, a, cuts[l - 1], cuts[l])
  }

  lemma CutsInside(cuts: seq<nat>, i: nat, j: nat, l: nat)
    requires Path(cuts, i, j) && 0 < l < |cuts|
    ensures i <= cuts[l - 1] <= cuts[l] <= j
  {
  }

  lemma ShiftedPath(cuts: seq<nat>, i: nat, j: nat, m: nat)
    requires Path(cuts, i, j) && i <= j
    ensures forall l :: 0 <= l < |cuts| ==> cuts[l] >= i
    ensures |cuts| > 0 && cuts[0] == i && Path(Shifted(cuts, i, m), m, m + (j - i))
  {
  }

  lemma SamePart(s: string, i: nat, j: nat, t: string, m: nat, k: nat, l: nat)
    requires Same(s, i, j, t, m) && i <= k <= l <= j
    ensures Same(s, k, l, t, k - i + m) && j <= |s| && m + (j - i) <= |t|
  {
    SameParts(s, i, j, t, m, k);
    SameParts(s, k, j, t, m + (k - i), l);
  }

  lemma {:induction false} LocalPat(s: string, p: Pat, i: nat, j: nat, t: string, m: nat)
    requires Same(s, i, j, t, m) && MatchPat(s, p, i, j)
    ensures MatchPat(t, p, m, m + (j - i))
    decreases p, 0
  {
    if p.Cons? {
      var k: nat :| Cut(i, k, j) && MatchItem(s, p.item, i, k) && MatchPat(s, p.rest, k, j);
      SameParts(s, i, j, t, m, k);
      LocalItem(s, p.item, i, k, t, m);
      LocalPat(s, p.rest, k, j, t, m + (k - i));
      assert Cut(m, m + (k - i), m + (j - i));
    }
  }

  lemma {:induction false} LocalConj(s: string, c: Conj, i: nat, j: nat, t: string, m: nat)
    requires Same(s, i, j, t, m) && MatchConj(s, c, i, j)
    ensures MatchConj(t, c, m, m + (j - i))
    decreases c, 0
  {
    LocalPat(s, c.p, i, j, t, m);
    if c.And? {
      LocalConj(s, c.more, i, j, t, m);
    }
  }

  lemma {:induction false} LocalAlts(s: string, a: Alts, i: nat, j: nat, t: string, m: nat)
    requires Same(s, i, j, t, m) && MatchAlts(s, a, i, j)
    ensures MatchAlts(t, a, m, m + (j - i))
    decreases a, 0
  {
    if MatchConj(s, a.c, i, j) {
      LocalConj(s, a.c, i, j, t, m);
    } else {
      LocalAlts(s, a.more, i, j, t, m);
    }
  }

  /** A part of a string matches as the string that it is. */
  lemma PartMatches(s: string, a: Alts, i: nat, j: nat)
    requires i <= j <= |s|
    ensures MatchAlts(s, a, i, j) <==> Matches(s[i..j], a)
  {
    var t := s[i..j];
    assert t[0..0 + (j - i)] == t;
    if MatchAlts(s, a, i, j) {
      LocalAlts(s, a, i, j, t, 0);
    }
    if Matches(t, a) {
      LocalAlts(t, a, 0, |t|, s, i);
    }
  }

  lemma OneIs(s: string, x: Item, i: nat, j: nat)
    requires i <= j <= |s|
    ensures MatchAlts(s, One(x), i, j) <==> MatchItem(s, x, i, j)
  {
    SeqIs(s, Cons(x, End), i, j);
    hide MatchItem;
    if MatchPat(s, Cons(x, End), i, j) {
      var k: nat :| Cut(i, k, j) && MatchItem(s, x, i, k) && MatchPat(s, End, k, j);
    }
    if MatchItem(s, x, i, j) {
      assert Cut(i, j, j) && MatchPat(s, End, j, j);
    }
  }

  lemma SeqIs(s: string, p: Pat, i: nat, j: nat)
    requires i <= j <= |s|
    ensures MatchAlts(s, Seq(p), i, j) <==> MatchPat(s, p, i, j)
  {
    assert MatchAlts(s, Only(Just(p)), i, j) <==> MatchConj(s, Just(p), i, j);
  }

  lemma SeqText(p: Pat)
    ensures AltsText(Seq(p)) == PatText(p)
  {
    assert AltsText(Seq(p)) == ConjText(Just(p));
  }

  lemma OneText(x: Item)
    ensures AltsText(One(x)) == ItemText(x)
  {
    SeqText(Cons(x, End));
    assert PatText(Cons(x, End)) == ItemText(x) + PatText(End) == ItemText(x);
  }

  // Sequences, alternatives and conjunctions.

  /** Nothing matches the empty string only. */
  lemma EmptyLaw(s: string)
    ensures Matches(s, Seq(End)) <==> s == ""
    ensures AltsText(Seq(End)) == ""
  {
  }

  /** A sequence matches what can be cut in two, the first part by the first item and the other by the rest. */
  lemma SequenceLaw(s: string, x: Item, rest: Pat)
    ensures Matches(s, Seq(Cons(x, rest))) <==>
      exists u, v :: s == u + v && Matches(u, One(x)) && Matches(v, Seq(rest))
    ensures AltsText(Seq(Cons(x, rest))) == AltsText(One(x)) + AltsText(Seq(rest))
  {
    var p, n := Cons(x, rest), |s|;
    hide MatchItem, MatchAlts;
    SeqIs(s, p, 0, n);
    OneText(x);
    SeqText(p);
    SeqText(rest);
    if Matches(s, Seq(p)) {
      var k: nat :| Cut(0, k, n) && MatchItem(s, x, 0, k) && MatchPat(s, rest, k, n);
      OneIs(s, x, 0, k);
      PartMatches(s, One(x), 0, k);
      SeqIs(s, rest, k, n);
      PartMatches(s, Seq(rest), k, n);
      assert s == s[0..k] + s[k..n];
    }
    if u, v :| s == u + v && Matches(u, One(x)) && Matches(v, Seq(rest)) {
      var k := |u|;
      assert s[0..k] == u && s[k..n] == v;
      PartMatches(s, One(x), 0, k);
      PartMatches(s, Seq(rest), k, n);
      OneIs(s, x, 0, k);
      SeqIs(s, rest, k, n);
      assert Cut(0, k, n);
    }
  }

  /** p|q matches what p or q matches. */
  lemma OrLaw(s: string, c: Conj, more: Alts)
    ensures Matches(s, Or(c, more)) <==> Matches(s, Only(c)) || Matches(s, more)
    ensures AltsText(Or(c, more)) == AltsText(Only(c)) + "|" + AltsText(more)
  {
    hide MatchConj;
  }

  /** p&q matches what both match. */
  lemma AndLaw(s: string, p: Pat, more: Conj)
    ensures Matches(s, Only(And(p, more))) <==> Matches(s, Seq(p)) && Matches(s, Only(more))
    ensures AltsText(Only(And(p, more))) == AltsText(Seq(p)) + "&" + AltsText(Only(more))
  {
    SeqIs(s, p, 0, |s|);
    hide MatchPat;
    assert MatchAlts(s, Only(And(p, more)), 0, |s|) <==> MatchConj(s, And(p, more), 0, |s|);
    assert MatchAlts(s, Only(more), 0, |s|) <==> MatchConj(s, more, 0, |s|);
  }

  // Items that take one character, and the star.

  /** ? matches every string of one character, also a slash or a dot. */
  lemma AnyLaw(s: string)
    ensures Matches(s, One(Any)) <==> |s| == 1
    ensures AltsText(One(Any)) == "?"
  {
    OneIs(s, Any, 0, |s|);
    OneText(Any);
  }

  /** A character matches itself. */
  lemma LitLaw(s: string, c: char, esc: bool)
    ensures Matches(s, One(Lit(c, esc))) <==> s == [c]
    ensures AltsText(One(Lit(c, esc))) == if esc then ['\\', c] else [c]
  {
    OneIs(s, Lit(c, esc), 0, |s|);
    OneText(Lit(c, esc));
    assert |s| == 1 ==> s == [s[0]];
  }

  /** * matches every string. */
  lemma StarLaw(s: string)
    ensures Matches(s, One(Star))
    ensures AltsText(One(Star)) == "*"
  {
    OneIs(s, Star, 0, |s|);
    OneText(Star);
  }

  // Brackets.

  function Char(c: char): SetChar {
    SetChar(c, false)
  }

  /** A set with ! matches the single characters that the set without it does not. */
  lemma NegationLaw(s: string, elems: seq<Elem>)
    ensures Matches(s, One(Bracket(true, elems))) <==> |s| == 1 && !Matches(s, One(Bracket(false, elems)))
    ensures Matches(s, One(Bracket(false, elems))) ==> |s| == 1
    ensures AltsText(One(Bracket(true, elems))) == "[!" + Body(elems) + "]"
    ensures AltsText(One(Bracket(false, elems))) == "[" + Body(elems) + "]"
  {
    OneIs(s, Bracket(true, elems), 0, |s|);
    OneIs(s, Bracket(false, elems), 0, |s|);
    OneText(Bracket(true, elems));
    OneText(Bracket(false, elems));
    assert "[!" + (Body(elems) + "]") == "[!" + Body(elems) + "]";
    assert "[" + (Body(elems) + "]") == "[" + Body(elems) + "]";
    hide InElems, Body;
  }

  /** A set matches what one of its elements matches. */
  lemma UnionLaw(s: string, elems: seq<Elem>)
    ensures Matches(s, One(Bracket(false, elems))) <==>
      exists i :: 0 <= i < |elems| && Matches(s, One(Bracket(false, [elems[i]])))
  {
    OneIs(s, Bracket(false, elems), 0, |s|);
    forall i | 0 <= i < |elems|
      ensures Matches(s, One(Bracket(false, [elems[i]]))) <==> |s| == 1 && InElem(elems[i], s[0])
    {
      ElemIs(s, elems[i]);
    }
    hide Matches, InElem;
  }

  lemma ElemIs(s: string, e: Elem)
    ensures Matches(s, One(Bracket(false, [e]))) <==> |s| == 1 && InElem(e, s[0])
  {
    OneIs(s, Bracket(false, [e]), 0, |s|);
    hide InElem, Matches;
    if |s| == 1 && InElem(e, s[0]) {
      assert InElem([e][0], s[0]);
    }
  }

  /** An element without a dash is a character. */
  lemma CharLaw(s: string, c: char)
    ensures Matches(s, One(Bracket(false, [Elem(Char(c), [])]))) <==> s == [c]
    ensures AltsText(One(Bracket(false, [Elem(Char(c), [])]))) == ['[', c, ']']
  {
    ElemIs(s, Elem(Char(c), []));
    NegationLaw(s, [Elem(Char(c), [])]);
    CharsOne(Char(c), []);
  }

  lemma CharsOne(x: SetChar, more: seq<SetChar>)
    ensures Flat([Elem(x, more)]) == [x] + Joined(more)
    ensures CharsText([x]) == CharText(x)
  {
    assert [Elem(x, more)][1..] == [] && [x][1..] == [];
  }

  lemma ThreeChars(a: SetChar, b: SetChar, c: SetChar)
    ensures CharsText([a, b, c]) == CharText(a) + CharText(b) + CharText(c)
  {
    assert [a, b, c][1..] == [b, c] && [b, c][1..] == [c] && [c][1..] == [];
    assert CharsText([c]) == CharText(c) + "" == CharText(c);
    assert CharsText([b, c]) == CharText(b) + CharText(c);
  }

  /** A range matches the characters from the first on to the last; of one that is the wrong way round the ends
      are left. */
  lemma RangeLaw(s: string, lo: char, hi: char)
    ensures var a := One(Bracket(false, [Elem(Char(lo), [Char(hi)])]));
      && (lo <= hi ==> (Matches(s, a) <==> |s| == 1 && lo <= s[0] <= hi))
      && (hi < lo ==> (Matches(s, a) <==> s == [lo] || s == [hi]))
      && AltsText(a) == ['[', lo, '-', hi, ']']
  {
    var e := Elem(Char(lo), [Char(hi)]);
    ElemIs(s, e);
    NegationLaw(s, [e]);
    CharsOne(Char(lo), [Char(hi)]);
    assert [Char(hi)][1..] == [];
    assert Joined([Char(hi)]) == [DASH, Char(hi)] && Joined([]) == [];
    ThreeChars(Char(lo), DASH, Char(hi));
    assert Flat([e]) == [Char(lo), DASH, Char(hi)];
    assert "[" + [lo, '-', hi] + "]" == ['[', lo, '-', hi, ']'];
    assert InElem(e, lo) && InElem(e, hi);
    if |s| == 1 {
      assert InRanges(Char(hi), [], s[0]) == false;
      assert InElem(e, s[0]) <==> InRange(lo, hi, s[0]);
    }
  }

  /** a-b-c stands for two ranges. */
  lemma ChainLaw(s: string, a: SetChar, b: SetChar, more: seq<SetChar>)
    requires more != []
    ensures Matches(s, One(Bracket(false, [Elem(a, [b] + more)]))) <==>
      || Matches(s, One(Bracket(false, [Elem(a, [b])])))
      || Matches(s, One(Bracket(false, [Elem(b, more)])))
  {
    ElemIs(s, Elem(a, [b] + more));
    ElemIs(s, Elem(a, [b]));
    ElemIs(s, Elem(b, more));
    assert ([b] + more)[1..] == more && [b][1..] == [];
    hide Matches, InRange;
    if |s| == 1 {
      assert InElem(Elem(a, [b] + more), s[0]) <==> InRange(a.c, b.c, s[0]) || InRanges(b, more, s[0]);
      assert InRanges(b, [], s[0]) == false;
      assert InElem(Elem(a, [b]), s[0]) <==> InRange(a.c, b.c, s[0]);
    }
  }

  /** An escaped character of a set stands for itself. */
  lemma EscapeLaw(s: string, a: SetChar, more: seq<SetChar>)
    ensures Matches(s, One(Bracket(false, [Elem(a, more)]))) <==>
      Matches(s, One(Bracket(false, [Elem(Char(a.c), seq(|more|, i requires 0 <= i < |more| => Char(more[i].c)))])))
  {
    var plain := seq(|more|, i requires 0 <= i < |more| => Char(more[i].c));
    ElemIs(s, Elem(a, more));
    ElemIs(s, Elem(Char(a.c), plain));
    if |s| == 1 {
      EscapedRanges(a, more, Char(a.c), plain, s[0]);
    }
    hide Matches, InRanges;
  }

  lemma {:induction false} EscapedRanges(a: SetChar, more: seq<SetChar>, b: SetChar, plain: seq<SetChar>, c: char)
    requires a.c == b.c && |plain| == |more| && forall i :: 0 <= i < |more| ==> plain[i].c == more[i].c
    ensures InRanges(a, more, c) <==> InRanges(b, plain, c)
    decreases |more|
  {
    if more != [] {
      EscapedRanges(more[0], more[1..], plain[0], plain[1..], c);
    }
  }

  // Groups.

  function Concat(pieces: seq<string>): string {
    if pieces == [] then "" else Concat(pieces[..|pieces| - 1]) + pieces[|pieces| - 1]
  }

  ghost predicate Pieces(s: string, a: Alts, pieces: seq<string>) {
    Concat(pieces) == s && forall i :: 0 <= i < |pieces| ==> Matches(pieces[i], a)
  }

  /** (p) and @(p) match what p matches. */
  lemma ExactlyLaw(s: string, a: Alts)
    ensures Matches(s, One(Sub(Plain, a))) <==> Matches(s, a)
    ensures Matches(s, One(Sub(Exactly, a))) <==> Matches(s, a)
    ensures AltsText(One(Sub(Plain, a))) == "(" + AltsText(a) + ")"
    ensures AltsText(One(Sub(Exactly, a))) == "@(" + AltsText(a) + ")"
  {
    OneIs(s, Sub(Plain, a), 0, |s|);
    OneIs(s, Sub(Exactly, a), 0, |s|);
    GroupText(Plain, a);
    GroupText(Exactly, a);
  }

  lemma GroupText(op: Op, a: Alts)
    ensures AltsText(One(Sub(op, a))) == OpText(op) + AltsText(a) + ")"
  {
    OneText(Sub(op, a));
  }

  /** ?(p) matches nothing too. */
  lemma OptionalLaw(s: string, a: Alts)
    ensures Matches(s, One(Sub(Optional, a))) <==> s == "" || Matches(s, a)
    ensures AltsText(One(Sub(Optional, a))) == "?(" + AltsText(a) + ")"
  {
    OneIs(s, Sub(Optional, a), 0, |s|);
    GroupText(Optional, a);
  }

  /** !(p) matches what p does not. */
  lemma NotLaw(s: string, a: Alts)
    ensures Matches(s, One(Sub(Not, a))) <==> !Matches(s, a)
    ensures AltsText(One(Sub(Not, a))) == "!(" + AltsText(a) + ")"
  {
    OneIs(s, Sub(Not, a), 0, |s|);
    GroupText(Not, a);
  }

  /** The string between the first two of n + 1 cuts, and so on. */
  lemma {:induction false} PiecesOf(s: string, a: Alts, cuts: seq<nat>, j: nat) returns (pieces: seq<string>)
    requires j <= |s| && Path(cuts, 0, j) && MatchEach(s, a, cuts, j)
    ensures |pieces| == |cuts| - 1 && Pieces(s[..j], a, pieces)
    decreases |cuts|
  {
    hide MatchAlts;
    if |cuts| == 1 {
      pieces := [];
    } else {
      var n := |cuts| - 1;
      var k := cuts[n - 1];
      assert cuts[..n][n - 1] == k && Path(cuts[..n], 0, k);
      assert MatchEach(s, a, cuts[..n], k);
      var front := PiecesOf(s, a, cuts[..n], k);
      assert MatchAlts(s, a, cuts[n - 1], cuts[n]);
      PartMatches(s, a, k, j);
      pieces := front + [s[k..j]];
      assert s[..k] + s[k..j] == s[..j];
      hide Path, MatchEach, Matches;
      PiecesMore(s[..k], a, front, s[k..j]);
    }
  }

  lemma PiecesMore(s: string, a: Alts, pieces: seq<string>, u: string)
    requires Pieces(s, a, pieces) && Matches(u, a)
    ensures Pieces(s + u, a, pieces + [u])
  {
    hide Matches;
    assert (pieces + [u])[..|pieces|] == pieces;
  }

  lemma {:induction false} CutsOf(s: string, a: Alts, pieces: seq<string>, j: nat) returns (cuts: seq<nat>)
    requires j <= |s| && Pieces(s[..j], a, pieces)
    ensures |cuts| == |pieces| + 1 && Path(cuts, 0, j) && MatchEach(s, a, cuts, j)
    decreases |pieces|
  {
    hide MatchAlts;
    if pieces == [] {
      cuts := [0];
    } else {
      var n := |pieces| - 1;
      var k := j - |pieces[n]|;
      assert s[..j] == Concat(pieces[..n]) + pieces[n];
      assert s[..k] == s[..j][..k] == Concat(pieces[..n]) && s[k..j] == s[..j][k..] == pieces[n];
      var front := CutsOf(s, a, pieces[..n], k);
      PartMatches(s, a, k, j);
      cuts := front + [j];
      EachMore(s, a, front, k, j);
    }
  }

  lemma EachMore(s: string, a: Alts, cuts: seq<nat>, k: nat, j: nat)
    requires k <= j <= |s| && Path(cuts, 0, k) && MatchEach(s, a, cuts, k) && MatchAlts(s, a, k, j)
    ensures Path(cuts + [j], 0, j) && MatchEach(s, a, cuts + [j], j)
  {
    var t := cuts + [j];
    forall m {:trigger t[m]} | 0 < m < |t| ensures MatchAlts(s, a, t[m - 1], t[m]) {
      if m < |cuts| {
        assert t[m - 1] == cuts[m - 1] && t[m] == cuts[m];
      }
    }
  }

  /** *(p) matches any number of pieces behind one another that p matches, and +(p) one or more. */
  lemma RepeatLaw(s: string, a: Alts)
    ensures Matches(s, One(Sub(ZeroOrMore, a))) <==> exists pieces :: Pieces(s, a, pieces)
    ensures Matches(s, One(Sub(OneOrMore, a))) <==> exists pieces :: pieces != [] && Pieces(s, a, pieces)
    ensures AltsText(One(Sub(ZeroOrMore, a))) == "*(" + AltsText(a) + ")"
    ensures AltsText(One(Sub(OneOrMore, a))) == "+(" + AltsText(a) + ")"
  {
    var n := |s|;
    GroupText(ZeroOrMore, a);
    GroupText(OneOrMore, a);
    OneIs(s, Sub(ZeroOrMore, a), 0, n);
    OneIs(s, Sub(OneOrMore, a), 0, n);
    assert s[..n] == s;
    hide MatchAlts, MatchEach, AltsText;
    if Matches(s, One(Sub(ZeroOrMore, a))) {
      assert MatchItem(s, Sub(ZeroOrMore, a), 0, n);
      var cuts: seq<nat> :| Path(cuts, 0, n) && MatchEach(s, a, cuts, n);
      var pieces := PiecesOf(s, a, cuts, n);
    }
    if Matches(s, One(Sub(OneOrMore, a))) {
      assert MatchItem(s, Sub(OneOrMore, a), 0, n);
      var cuts: seq<nat> :| Path(cuts, 0, n) && |cuts| > 1 && MatchEach(s, a, cuts, n);
      var pieces := PiecesOf(s, a, cuts, n);
    }
    if pieces :| Pieces(s, a, pieces) {
      var cuts := CutsOf(s, a, pieces, n);
      assert MatchItem(s, Sub(ZeroOrMore, a), 0, n);
      assert pieces != [] ==> MatchItem(s, Sub(OneOrMore, a), 0, n);
    }
    if pieces :| pieces != [] && Pieces(s, a, pieces) {
      var cuts := CutsOf(s, a, pieces, n);
      assert MatchItem(s, Sub(OneOrMore, a), 0, n);
    }
  }
}
