/**
 The patterns of src/cmd/3d/strmatch.c (20-59): their abstract syntax, the strings they
 denote, and how they are written down.
 */
module Pattern {

  /** One character of a bracket, possibly escaped. */
  datatype SetChar = SetChar(c: char, esc: bool)

  /** A character of a bracket, and more that are joined to it by dashes: each joint is a range. */
  datatype Elem = Elem(first: SetChar, more: seq<SetChar>)

  /** ( @( ?( *( +( !( */
  datatype Op = Plain | Exactly | Optional | ZeroOrMore | OneOrMore | Not

  datatype Item =
    | Lit(c: char, esc: bool)
    | Any
    | Star
    | Bracket(neg: bool, elems: seq<Elem>)
    | Sub(op: Op, alts: Alts)

  /** Items in sequence, sequences joined by &, and those joined by |. */
  datatype Pat = End | Cons(item: Item, rest: Pat)
  datatype Conj = Just(p: Pat) | And(p: Pat, more: Conj)
  datatype Alts = Only(c: Conj) | Or(c: Conj, more: Alts)

  // ------------------------------------------------------------ what is denoted

  /** A range compares characters by their numbers. This is the order of unsigned bytes: where char is signed the
      source compares bytes from 0x80 on as negative numbers, below all of ASCII. */
  predicate InRange(lo: char, hi: char, c: char) {
    c == lo || c == hi || lo < c < hi
  }

  predicate InRanges(lo: SetChar, more: seq<SetChar>, c: char)
    decreases |more|
  {
    more != [] && (InRange(lo.c, more[0].c, c) || InRanges(more[0], more[1..], c))
  }

  predicate InElem(e: Elem, c: char) {
    if e.more == [] then c == e.first.c else InRanges(e.first, e.more, c)
  }

  predicate InElems(elems: seq<Elem>, c: char) {
    exists i :: 0 <= i < |elems| && InElem(elems[i], c)
  }

  predicate InBracket(neg: bool, elems: seq<Elem>, c: char) {
    neg != InElems(elems, c)
  }

  /** k is a place between i and j. */
  predicate Cut(i: nat, k: nat, j: nat) {
    i <= k <= j
  }

  /** Places from i on to j. */
  predicate Path(cuts: seq<nat>, i: nat, j: nat) {
    && |cuts| > 0 && cuts[0] == i && cuts[|cuts| - 1] == j
    && forall l, m :: 0 <= l <= m < |cuts| ==> cuts[l] <= cuts[m]
  }

  /** The item matches the part of s from i up to j. */
  ghost predicate MatchItem(s: string, x: Item, i: nat, j: nat)
    requires i <= j <= |s|
    decreases x, 0
  {
    match x
    case Lit(c, _) => j == i + 1 && s[i] == c
    case Any => j == i + 1
    case Star => true
    case Bracket(neg, elems) => j == i + 1 && InBracket(neg, elems, s[i])
    case Sub(op, alts) =>
      match op
      case Plain => MatchAlts(s, alts, i, j)
      case Exactly => MatchAlts(s, alts, i, j)
      case Optional => i == j || MatchAlts(s, alts, i, j)
      case ZeroOrMore =>
        exists cuts: seq<nat> {:trigger Path(cuts, i, j)} :: Path(cuts, i, j) && MatchEach(s, alts, cuts, j)
      case OneOrMore =>
        exists cuts: seq<nat> {:trigger Path(cuts, i, j)} ::
          Path(cuts, i, j) && |cuts| > 1 && MatchEach(s, alts, cuts, j)
      case Not => !MatchAlts(s, alts, i, j)
  }

  /** Every piece between neighbouring cuts matches. */
  ghost predicate MatchEach(s: string, a: Alts, cuts: seq<nat>, j: nat)
    requires j <= |s| && |cuts| > 0 && Path(cuts, cuts[0], j)
    decreases a, 1
  {
    forall m {:trigger cuts[m]} :: 0 < m < |cuts| ==> MatchAlts(s, a, cuts[m - 1], cuts[m])
  }

  ghost predicate MatchPat(s: string, p: Pat, i: nat, j: nat)
    requires i <= j <= |s|
    decreases p, 0
  {
    match p
    case End => i == j
    case Cons(x, rest) =>
      exists k: nat {:trigger Cut(i, k, j)} :: Cut(i, k, j) && MatchItem(s, x, i, k) && MatchPat(s, rest, k, j)
  }

  ghost predicate MatchConj(s: string, c: Conj, i: nat, j: nat)
    requires i <= j <= |s|
    decreases c, 0
  {
    match c
    case Just(p) => MatchPat(s, p, i, j)
    case And(p, more) => MatchPat(s, p, i, j) && MatchConj(s, more, i, j)
  }

  ghost predicate MatchAlts(s: string, a: Alts, i: nat, j: nat)
    requires i <= j <= |s|
    decreases a, 0
  {
    match a
    case Only(c) => MatchConj(s, c, i, j)
    case Or(c, more) => MatchConj(s, c, i, j) || MatchAlts(s, more, i, j)
  }

  /** The language of a pattern. */
  ghost predicate Matches(s: string, a: Alts) {
    MatchAlts(s, a, 0, |s|)
  }

  // -------------------------------------------------------------- nonempty repeats

  lemma PathTail(s: string, a: Alts, cuts: seq<nat>, i: nat, j: nat)
    requires i <= j <= |s| && Path(cuts, i, j) && MatchEach(s, a, cuts, j) && |cuts| > 1
    ensures i <= cuts[1] <= j && MatchAlts(s, a, i, cuts[1])
    ensures Path(cuts[1..], cuts[1], j) && MatchEach(s, a, cuts[1..], j)
  {
    var t := cuts[1..];
    forall m | 0 < m < |t|
      ensures MatchAlts(s, a, t[m - 1], t[m])
    {
      assert t[m - 1] == cuts[m] && t[m] == cuts[m + 1];
    }
  }

  lemma PathMore(s: string, a: Alts, cuts: seq<nat>, i: nat, k: nat, j: nat)
    requires i <= k <= j <= |s| && MatchAlts(s, a, i, k) && Path(cuts, k, j) && MatchEach(s, a, cuts, j)
    ensures Path([i] + cuts, i, j) && MatchEach(s, a, [i] + cuts, j)
  {
    var t := [i] + cuts;
    forall m | 0 < m < |t|
      ensures MatchAlts(s, a, t[m - 1], t[m])
    {
      if m > 1 {
        assert t[m - 1] == cuts[m - 2] && t[m] == cuts[m - 1];
      }
    }
  }

  /** Requiring a nonempty first piece loses no match of a repetition. */
  lemma {:induction false} FirstPiece(s: string, a: Alts, cuts: seq<nat>, i: nat, j: nat) returns (k: nat)
    requires i < j <= |s| && Path(cuts, i, j) && MatchEach(s, a, cuts, j)
    ensures i < k <= j && MatchAlts(s, a, i, k) && MatchItem(s, Sub(ZeroOrMore, a), k, j)
    decreases |cuts|
  {
    PathTail(s, a, cuts, i, j);
    if cuts[1] == i {
      k := FirstPiece(s, a, cuts[1..], i, j);
    } else {
      k := cuts[1];
    }
  }

  /** *(a) followed by rest: nothing more of it, or a nonempty piece and the same again. */
  lemma ManyUnfolds(s: string, a: Alts, rest: Pat, i: nat, j: nat)
    requires i <= j <= |s|
    ensures MatchPat(s, Cons(Sub(ZeroOrMore, a), rest), i, j) <==>
            (MatchPat(s, rest, i, j)
             || exists k: nat {:trigger Cut(i, k, j)} ::
                  Cut(i, k, j) && i < k && MatchAlts(s, a, i, k) && MatchPat(s, Cons(Sub(ZeroOrMore, a), rest), k, j))
  {
    var p, x := Cons(Sub(ZeroOrMore, a), rest), Sub(ZeroOrMore, a);
    if MatchPat(s, p, i, j) {
      var k: nat :| Cut(i, k, j) && MatchItem(s, x, i, k) && MatchPat(s, rest, k, j);
      if i < k {
        var cuts: seq<nat> :| Path(cuts, i, k) && MatchEach(s, a, cuts, k);
        var m := FirstPiece(s, a, cuts, i, k);
        assert Cut(i, m, j) && Cut(m, k, j);
      }
    }
    if MatchPat(s, rest, i, j) {
      assert Path([i], i, i) && MatchEach(s, a, [i], i);
      assert Cut(i, i, j) && MatchItem(s, x, i, i);
    }
    if k: nat :| Cut(i, k, j) && i < k && MatchAlts(s, a, i, k) && MatchPat(s, p, k, j) {
      var m: nat :| Cut(k, m, j) && MatchItem(s, x, k, m) && MatchPat(s, rest, m, j);
      var cuts: seq<nat> :| Path(cuts, k, m) && MatchEach(s, a, cuts, m);
      PathMore(s, a, cuts, i, k, m);
      assert Cut(i, m, j) && MatchItem(s, x, i, m);
    }
  }

  /** +(a) followed by rest: any piece, and then *(a). */
  lemma SomeUnfolds(s: string, a: Alts, rest: Pat, i: nat, j: nat)
    requires i <= j <= |s|
    ensures MatchPat(s, Cons(Sub(OneOrMore, a), rest), i, j) <==>
            exists k: nat {:trigger Cut(i, k, j)} ::
              Cut(i, k, j) && MatchAlts(s, a, i, k) && MatchPat(s, Cons(Sub(ZeroOrMore, a), rest), k, j)
  {
    var p, x := Cons(Sub(ZeroOrMore, a), rest), Sub(OneOrMore, a);
    if MatchPat(s, Cons(x, rest), i, j) {
      var k: nat :| Cut(i, k, j) && MatchItem(s, x, i, k) && MatchPat(s, rest, k, j);
      var cuts: seq<nat> :| Path(cuts, i, k) && |cuts| > 1 && MatchEach(s, a, cuts, k);
      PathTail(s, a, cuts, i, k);
      assert MatchItem(s, Sub(ZeroOrMore, a), cuts[1], k);
      assert Cut(i, cuts[1], j) && Cut(cuts[1], k, j);
    }
    if k: nat :| Cut(i, k, j) && MatchAlts(s, a, i, k) && MatchPat(s, p, k, j) {
      var m: nat :| Cut(k, m, j) && MatchItem(s, Sub(ZeroOrMore, a), k, m) && MatchPat(s, rest, m, j);
      var cuts: seq<nat> :| Path(cuts, k, m) && MatchEach(s, a, cuts, m);
      PathMore(s, a, cuts, i, k, m);
      assert Cut(i, m, j) && MatchItem(s, x, i, m);
    }
  }

  /** ?(a) followed by rest: nothing, or a nonempty piece of it. */
  lemma OptionalUnfolds(s: string, a: Alts, rest: Pat, i: nat, j: nat)
    requires i <= j <= |s|
    ensures MatchPat(s, Cons(Sub(Optional, a), rest), i, j) <==>
            (MatchPat(s, rest, i, j)
             || exists k: nat {:trigger Cut(i, k, j)} ::
                  Cut(i, k, j) && i < k && MatchAlts(s, a, i, k) && MatchPat(s, rest, k, j))
  {
    var x := Sub(Optional, a);
    if MatchPat(s, Cons(x, rest), i, j) {
      var k: nat :| Cut(i, k, j) && MatchItem(s, x, i, k) && MatchPat(s, rest, k, j);
    }
    if MatchPat(s, rest, i, j) {
      assert Cut(i, i, j) && MatchItem(s, x, i, i);
    }
    if k: nat :| Cut(i, k, j) && i < k && MatchAlts(s, a, i, k) && MatchPat(s, rest, k, j) {
      assert MatchItem(s, x, i, k);
    }
  }
}
