/**
 The steps of the shell pattern matcher (src/cmd/3d/strmatch.c:257-810) at a place in the text of a
 pattern: which part of the pattern stands there, and what its language says of the string.
 */
module MatchSteps {
  import opened Pattern
  import opened PatternText
  import opened Gobble
  import opened Brackets
  import opened Wrappers

  // ------------------------------------------------------- places in the text

  /** A sequence of items stands at p and is all there is up to a terminator. */
  predicate AtPat(t: string, p: nat, x: Pat) {
    PatOk(x) && Stands(t, p, PatText(x)) && IsTerm(At(t, p + |PatText(x)|))
  }

  predicate AtConj(t: string, p: nat, c: Conj) {
    ConjOk(c) && Stands(t, p, ConjText(c)) && IsTerm(At(t, p + |ConjText(c)|)) && At(t, p + |ConjText(c)|) != '&'
  }

  predicate AtAlts(t: string, p: nat, a: Alts) {
    AltsOk(a) && Stands(t, p, AltsText(a)) && (At(t, p + |AltsText(a)|) == ')' || At(t, p + |AltsText(a)|) == '\0')
  }

  lemma PatEnd(t: string, p: nat)
    requires AtPat(t, p, End)
    ensures IsTerm(At(t, p))
  {
  }

  /** The text of an item is not empty, and ( comes first only in a plain group. */
  lemma ItemStarts(x: Item)
    requires ItemOk(x)
    ensures ItemText(x) != "" && (ItemText(x)[0] == '(' <==> x.Sub? && x.op == Plain) && !IsTerm(ItemText(x)[0])
  {
    hide AltsText, Body, BodyOk, AltsOk;
  }

  /** Behind an item comes the rest of the sequence. */
  lemma NextItem(t: string, p: nat, x: Item, rest: Pat)
    requires AtPat(t, p, Cons(x, rest))
    ensures ItemOk(x) && Stands(t, p, ItemText(x)) && AtPat(t, p + |ItemText(x)|, rest)
    ensures |PatText(Cons(x, rest))| == |ItemText(x)| + |PatText(rest)| && ItemText(x) != ""
    ensures Opens(x) ==> At(t, p + |ItemText(x)|) != '('
  {
    hide ItemText, ItemOk, Stands;
    StandsSplit(t, p, ItemText(x), PatText(rest));
    ItemStarts(x);
    assert PatOk(rest);
    if rest.Cons? {
      var k := p + |ItemText(x)|;
      StandsSplit(t, k, ItemText(rest.item), PatText(rest.rest));
      ItemStarts(rest.item);
      FirstStands(t, k, ItemText(rest.item));
    }
  }

  /** What the first characters of an item tell about it. */
  predicate Reads(t: string, p: nat, x: Item) {
    match x
    case Lit(c, esc) => if esc then At(t, p) == '\\' && At(t, p + 1) == c && c != '\0' && !IsDigit(c)
                        else At(t, p) == c && PlainChar(c) && (OpensGroup(c) ==> At(t, p + 1) != '(')
    case Any => At(t, p) == '?' && At(t, p + 1) != '('
    case Star => At(t, p) == '*' && At(t, p + 1) != '('
    case Bracket(_, _) => At(t, p) == '['
    case Sub(op, _) =>
      match op
      case Plain => At(t, p) == '('
      case Exactly => At(t, p) == '@' && At(t, p + 1) == '('
      case Optional => At(t, p) == '?' && At(t, p + 1) == '('
      case ZeroOrMore => At(t, p) == '*' && At(t, p + 1) == '('
      case OneOrMore => At(t, p) == '+' && At(t, p + 1) == '('
      case Not => At(t, p) == '!' && At(t, p + 1) == '('
  }

  lemma ItemReads(t: string, p: nat, x: Item, rest: Pat)
    requires AtPat(t, p, Cons(x, rest))
    ensures Reads(t, p, x) && p < |t|
    ensures x.Lit? || x.Any? || x.Star? ==> |ItemText(x)| == if x.Lit? && x.esc then 2 else 1
  {
    hide AltsText, Body, BodyOk, AltsOk, PatOk, PatText, IsTerm;
    NextItem(t, p, x, rest);
    var u := ItemText(x);
    assert t[p] == t[p..p + |u|][0];
    if |u| > 1 {
      assert t[p + 1] == t[p..p + |u|][1];
    }
  }

  /** The inside of a group. */
  lemma InsideGroup(t: string, p: nat, op: Op, a: Alts, rest: Pat)
    requires CString(t) && AtPat(t, p, Cons(Sub(op, a), rest))
    ensures var q := p + |OpText(op)|;
            && AtAlts(t, q, a) && At(t, q + |AltsText(a)|) == ')'
            && Scan(t, q, '\0', 0, -1, '\0') == Some(p + |ItemText(Sub(op, a))|)
  {
    hide AltsText, PatOk, PatText, Scan;
    NextItem(t, p, Sub(op, a), rest);
    StandsSplit(t, p, OpText(op) + AltsText(a), ")");
    StandsSplit(t, p, OpText(op), AltsText(a));
    var q := p + |OpText(op)|;
    StandsSplit(t, q, AltsText(a), ")");
    FirstStands(t, q + |AltsText(a)|, ")");
    GroupEnd(t, q, a);
  }

  // ------------------------------------------------------- meaning, step by step

  /** At the place of its own repetition a +( group may match nothing more. */
  function Again(x: Pat, again: bool): Pat {
    if again && x.Cons? && x.item.Sub? && x.item.op == OneOrMore then Cons(Sub(ZeroOrMore, x.item.alts), x.rest) else x
  }

  lemma EndMeans(s: string, i: nat, j: nat)
    requires i <= j <= |s|
    ensures MatchPat(s, End, i, j) <==> i == j
  {
  }

  /** An item that takes exactly one character. */
  lemma OneCharMeans(s: string, x: Item, rest: Pat, i: nat, j: nat)
    requires i <= j <= |s| && (x.Lit? || x.Any? || x.Bracket?)
    ensures MatchPat(s, Cons(x, rest), i, j) <==> i < j && MatchItem(s, x, i, i + 1) && MatchPat(s, rest, i + 1, j)
  {
    if i < j {
      assert Cut(i, i + 1, j);
    }
  }

  lemma StarMeans(s: string, rest: Pat, i: nat, j: nat)
    requires i <= j <= |s|
    ensures MatchPat(s, Cons(Star, rest), i, j) <==>
      exists k: nat {:trigger Cut(i, k, j)} :: Cut(i, k, j) && MatchPat(s, rest, k, j)
  {
    forall k: nat | Cut(i, k, j)
      ensures MatchItem(s, Star, i, k)
    {
    }
  }

  /** Several stars are the same as one. */
  lemma StarStar(s: string, rest: Pat, i: nat, j: nat)
    requires i <= j <= |s|
    ensures MatchPat(s, Cons(Star, Cons(Star, rest)), i, j) <==> MatchPat(s, Cons(Star, rest), i, j)
  {
    StarMeans(s, Cons(Star, rest), i, j);
    StarMeans(s, rest, i, j);
    if k: nat :| Cut(i, k, j) && MatchPat(s, Cons(Star, rest), k, j) {
      StarMeans(s, rest, k, j);
      var m: nat :| Cut(k, m, j) && MatchPat(s, rest, m, j);
      assert Cut(i, m, j);
    }
    if MatchPat(s, Cons(Star, rest), i, j) {
      assert Cut(i, i, j);
    }
  }

  lemma LastStarMeans(s: string, i: nat, j: nat)
    requires i <= j <= |s|
    ensures MatchPat(s, Cons(Star, End), i, j)
  {
    StarMeans(s, End, i, j);
    EndMeans(s, j, j);
    assert Cut(i, j, j);
  }

  // ------------------------------------------------------------ groups

  /** A group takes the part of s from i to k. */
  ghost predicate Takes(s: string, op: Op, a: Alts, i: nat, k: nat)
    requires i <= k <= |s|
  {
    MatchAlts(s, a, i, k) != (op == Not)
  }

  /** What has to match behind a part that a group has taken. */
  function Behind(op: Op, a: Alts, rest: Pat): Pat {
    if op == ZeroOrMore || op == OneOrMore then Cons(Sub(ZeroOrMore, a), rest) else rest
  }

  /** The group may be passed over, and then takes only nonempty parts. */
  predicate MaySkip(op: Op, again: bool) {
    op == ZeroOrMore || op == Optional || (op == OneOrMore && again)
  }

  /** The group takes a part that ends at from or later, and the rest matches behind it. */
  ghost predicate TakesFrom(s: string, op: Op, a: Alts, rest: Pat, i: nat, from: nat, j: nat)
    requires i <= from && i <= j <= |s|
  {
    exists k: nat {:trigger Cut(i, k, j)} :: Cut(i, k, j) && from <= k && Takes(s, op, a, i, k)
      && MatchPat(s, Behind(op, a, rest), k, j)
  }

  /** The way onematch tries a group is complete. */
  lemma GroupMeans(s: string, op: Op, a: Alts, rest: Pat, i: nat, j: nat, again: bool)
    requires i <= j <= |s|
    ensures MatchPat(s, Again(Cons(Sub(op, a), rest), again), i, j) <==>
            if MaySkip(op, again) then MatchPat(s, rest, i, j) || TakesFrom(s, op, a, rest, i, i + 1, j)
            else TakesFrom(s, op, a, rest, i, i, j)
  {
    match op
    case ZeroOrMore => ManyUnfolds(s, a, rest, i, j);
    case OneOrMore => if again { ManyUnfolds(s, a, rest, i, j); } else { SomeUnfolds(s, a, rest, i, j); }
    case Optional => OptionalUnfolds(s, a, rest, i, j);
    case _ =>
      forall k: nat | Cut(i, k, j)
        ensures MatchItem(s, Sub(op, a), i, k) <==> Takes(s, op, a, i, k)
      {
      }
  }

  lemma NowhereLeft(s: string, op: Op, a: Alts, rest: Pat, i: nat, from: nat, j: nat)
    requires i <= j < from && j <= |s|
    ensures !TakesFrom(s, op, a, rest, i, from, j)
  {
  }

  lemma TakesNext(s: string, op: Op, a: Alts, rest: Pat, i: nat, from: nat, j: nat)
    requires i <= from <= j <= |s|
    ensures TakesFrom(s, op, a, rest, i, from, j) <==>
            (Takes(s, op, a, i, from) && MatchPat(s, Behind(op, a, rest), from, j))
              || TakesFrom(s, op, a, rest, i, from + 1, j)
  {
    assert Cut(i, from, j);
  }

  /** The rest matches from some place on. */
  ghost predicate MatchesFrom(s: string, rest: Pat, from: nat, j: nat)
    requires j <= |s|
  {
    exists k: nat {:trigger Cut(from, k, j)} :: Cut(from, k, j) && MatchPat(s, rest, k, j)
  }

  lemma MatchesNext(s: string, rest: Pat, from: nat, j: nat)
    requires from <= j <= |s|
    ensures MatchesFrom(s, rest, from, j) <==> MatchPat(s, rest, from, j) || MatchesFrom(s, rest, from + 1, j)
  {
    assert Cut(from, from, j);
    if k: nat :| Cut(from, k, j) && MatchPat(s, rest, k, j) {
      assert k > from ==> Cut(from + 1, k, j);
    }
    if k: nat :| Cut(from + 1, k, j) && MatchPat(s, rest, k, j) {
      assert Cut(from, k, j);
    }
  }

  lemma MatchesNowhere(s: string, rest: Pat, from: nat, j: nat)
    requires j <= |s| && from > j
    ensures !MatchesFrom(s, rest, from, j)
  {
  }

  lemma StarFrom(s: string, rest: Pat, i: nat, j: nat)
    requires i <= j <= |s|
    ensures MatchPat(s, Cons(Star, rest), i, j) <==> MatchesFrom(s, rest, i, j)
  {
    StarMeans(s, rest, i, j);
  }

  // ------------------------------------------------- conjunctions, alternatives

  lemma FirstOfConj(t: string, p: nat, c: Conj)
    requires AtConj(t, p, c)
    ensures p + |ConjText(c)| <= |t|
    ensures var q := p + |PatText(c.p)|;
            && AtPat(t, p, c.p)
            && (At(t, q) == '&' <==> c.And?)
            && (c.Just? ==> q == p + |ConjText(c)|)
            && (c.And? ==> AtConj(t, q + 1, c.more) && q + 1 + |ConjText(c.more)| == p + |ConjText(c)| && q < |t|)
  {
    hide PatText, PatOk;
    if c.And? {
      var u := PatText(c.p) + "&";
      StandsSplit(t, p, u, ConjText(c.more));
      StandsSplit(t, p, PatText(c.p), "&");
      FirstStands(t, p + |PatText(c.p)|, "&");
    }
  }

  lemma FirstOfAlts(t: string, p: nat, a: Alts)
    requires CString(t) && AtAlts(t, p, a)
    ensures p + |AltsText(a)| <= |t|
    ensures var q := p + |ConjText(a.c)|;
            && AtConj(t, p, a.c)
            && (At(t, q) == '|' <==> a.Or?)
            && (a.Only? ==> q == p + |AltsText(a)|)
            && (a.Or? ==> AtAlts(t, q + 1, a.more) && q + 1 + |AltsText(a.more)| == p + |AltsText(a)| && q < |t|)
            && Scan(t, p, '|', 0, -1, '\0') == if a.Or? then Some(q + 1) else None
  {
    hide ConjText, ConjOk, Scan;
    if a.Or? {
      var u := ConjText(a.c) + "|";
      StandsSplit(t, p, u, AltsText(a.more));
      StandsSplit(t, p, ConjText(a.c), "|");
      FirstStands(t, p + |ConjText(a.c)|, "|");
    }
    NextAlternative(t, p, a.c);
  }
}
