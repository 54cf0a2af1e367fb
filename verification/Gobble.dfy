/**
 gobble (src/cmd/3d/strmatch.c:186-251): skips pattern text up to the end of a group or of
 an alternative, without parsing it, by counting parentheses outside brackets.
 */
module Gobble {
  import opened Pattern
  import opened PatternText
  import opened Wrappers

  /** A text that a C string can hold. */
  predicate CString(t: string) {
    forall i :: 0 <= i < |t| ==> t[i] != '\0'
  }

  /** What the scan finds from i on: depth open parentheses, b the start of the bracket it is
      in or -1, c the class delimiter it is in or NUL. */
  function Scan(t: string, i: nat, sub: char, depth: nat, b: int, c: char): Option<nat>
    requires b <= i
    decreases |t| - i
  {
    if i >= |t| then None
    else if t[i] == '\\' then (if i + 1 < |t| then Scan(t, i + 2, sub, depth, b, c) else None)
    else if t[i] == '[' then
      if b < 0 then
        var n := if At(t, i + 1) == '!' then i + 2 else i + 1;
        Scan(t, n, sub, depth, n, c)
      else
        var n := At(t, i + 1);
        Scan(t, i + 1, sub, depth, b, if n == '.' || n == '=' || n == ':' then n else c)
    else if t[i] == ']' && b >= 0 then
      if i > 0 && t[i - 1] == c then Scan(t, i + 1, sub, depth, b, '\0')
      else Scan(t, i + 1, sub, depth, if b != i then -1 else b, c)
    else if t[i] == '(' && b < 0 then Scan(t, i + 1, sub, depth + 1, b, c)
    else if t[i] == ')' && b < 0 then
      if depth == 0 then (if sub == '\0' then Some(i + 1) else None) else Scan(t, i + 1, sub, depth - 1, b, c)
    else if t[i] == '|' && b < 0 && depth == 0 && sub == '|' then Some(i + 1)
    else Scan(t, i + 1, sub, depth, b, c)
  }

  /** The loop of gobble. */
  method Gobble(t: string, from: nat, sub: char) returns (r: Option<nat>)
    requires CString(t)
    ensures r == Scan(t, from, sub, 0, -1, '\0')
    ensures r.Some? ==> from < r.value <= |t|
  {
    var s: nat, p: int, b: int, c := from, 0, -1, '\0';
    while true
      invariant from <= s && 0 <= p && b <= s && (b < 0 || b > 0)
      invariant Scan(t, from, sub, 0, -1, '\0') == Scan(t, s, sub, p, b, c)
      decreases |t| + 2 - s
    {
      var ch := At(t, s);
      s := s + 1;
      if ch == '\\' {
        ch := At(t, s);
        s := s + 1;
        if ch == '\0' {
          return None;
        }
      } else if ch == '\0' {
        return None;
      } else if ch == '[' {
        if b < 0 {
          if At(t, s) == '!' {
            s := s + 1;
          }
          b := s;
        } else if At(t, s) == '.' || At(t, s) == '=' || At(t, s) == ':' {
          c := At(t, s);
        }
      } else if ch == ']' {
        if b >= 0 {
          if At(t, s - 2) == c {
            c := '\0';
          } else if b != s - 1 {
            b := -1;
          }
        }
      } else if ch == '(' {
        if b < 0 {
          p := p + 1;
        }
      } else if ch == ')' {
        if b < 0 {
          if p <= 0 {
            return if sub == '\0' then Some(s) else None;
          }
          p := p - 1;
        }
      } else if ch == '|' {
        if b < 0 && p == 0 && sub == '|' {
          return Some(s);
        }
      }
    }
  }

  // ---------------------------------------------------------- skipping a pattern

  lemma FirstStands(t: string, i: nat, u: string)
    requires u != "" && Stands(t, i, u)
    ensures At(t, i) == u[0]
  {
    assert t[i..i + |u|][0] == u[0];
  }

  /** The characters of a bracket stand at i and are read as such, the first m of them before i. */
  predicate Holds(t: string, i: nat, xs: seq<SetChar>, m: nat) {
    m <= |xs| && Stands(t, i, CharsText(xs[m..]) + "]") && forall k :: 0 <= k < |xs| ==> FlatOk(xs, k)
  }

  lemma CharsFirst(t: string, i: nat, xs: seq<SetChar>, m: nat)
    requires m < |xs| && Holds(t, i, xs, m)
    ensures Stands(t, i, CharText(xs[m])) && Holds(t, i + |CharText(xs[m])|, xs, m + 1)
    ensures |CharsText(xs[m..])| == |CharText(xs[m])| + |CharsText(xs[m + 1..])|
  {
    assert xs[m..][1..] == xs[m + 1..] && xs[m..][0] == xs[m];
    assert CharsText(xs[m..]) + "]" == CharText(xs[m]) + (CharsText(xs[m + 1..]) + "]");
    StandsSplit(t, i, CharText(xs[m]), CharsText(xs[m + 1..]) + "]");
  }

  /** What stands at i, and what stands behind it. */
  lemma CharReads(t: string, i: nat, xs: seq<SetChar>, m: nat)
    requires m < |xs| && Holds(t, i, xs, m)
    ensures if xs[m].esc then At(t, i) == '\\' && At(t, i + 1) == xs[m].c && i + 1 < |t|
            else At(t, i) == xs[m].c && xs[m].c != '\\' && i < |t|
    ensures var j := i + |CharText(xs[m])|;
      At(t, j) == (if m + 1 == |xs| then ']' else if xs[m + 1].esc then '\\' else xs[m + 1].c) && j < |t|
  {
    CharsFirst(t, i, xs, m);
    var u, j := CharText(xs[m]), i + |CharText(xs[m])|;
    FirstStands(t, i, u);
    assert FlatOk(xs, m);
    if xs[m].esc {
      assert t[i + 1] == t[i..i + |u|][1];
    }
    if m + 1 == |xs| {
      assert CharsText(xs[m + 1..]) + "]" == "]";
      FirstStands(t, j, "]");
    } else {
      CharsFirst(t, j, xs, m + 1);
      FirstStands(t, j, CharText(xs[m + 1]));
    }
  }

  /** A character inside a bracket changes nothing. */
  lemma SkipChar(t: string, i: nat, xs: seq<SetChar>, m: nat, sub: char, depth: nat, b: nat)
    requires CString(t) && m < |xs| && Holds(t, i, xs, m) && 0 < b <= i && (b == i <==> m == 0)
    ensures Scan(t, i, sub, depth, b, '\0') == Scan(t, i + |CharText(xs[m])|, sub, depth, b, '\0')
  {
    CharReads(t, i, xs, m);
    assert FlatOk(xs, m);
    hide Holds;
  }

  lemma {:induction false} SkipChars(t: string, i: nat, xs: seq<SetChar>, m: nat, sub: char, depth: nat, b: nat)
    requires CString(t) && Holds(t, i, xs, m) && 0 < b <= i && (b == i <==> m == 0)
    ensures Scan(t, i, sub, depth, b, '\0') == Scan(t, i + |CharsText(xs[m..])|, sub, depth, b, '\0')
    decreases |xs| - m
  {
    hide Scan;
    if m < |xs| {
      SkipChar(t, i, xs, m, sub, depth, b);
      CharsFirst(t, i, xs, m);
      SkipChars(t, i + |CharText(xs[m])|, xs, m + 1, sub, depth, b);
    }
  }

  lemma OpenBracket(t: string, i: nat, neg: bool, sub: char, depth: nat)
    requires Stands(t, i, Opening(neg)) && (!neg ==> At(t, i + 1) != '!')
    ensures var k := i + |Opening(neg)|; k > 0 && Scan(t, i, sub, depth, -1, '\0') == Scan(t, k, sub, depth, k, '\0')
  {
    var u := Opening(neg);
    assert t[i] == t[i..i + |u|][0];
    if neg {
      assert t[i + 1] == t[i..i + |u|][1];
    }
  }

  lemma CloseBracket(t: string, i: nat, sub: char, depth: nat, b: nat)
    requires CString(t) && Stands(t, i, "]") && b < i
    ensures Scan(t, i, sub, depth, b, '\0') == Scan(t, i + 1, sub, depth, -1, '\0')
  {
    assert t[i..i + 1][0] == ']';
  }

  /** The body of a bracket stands behind its opening. */
  lemma BodyStands(t: string, i: nat, neg: bool, elems: seq<Elem>)
    requires BodyOk(neg, elems) && Stands(t, i, ItemText(Bracket(neg, elems)))
    ensures var k := i + |Opening(neg)|;
      && Stands(t, i, Opening(neg)) && Holds(t, k, Flat(elems), 0)
      && Stands(t, k + |Body(elems)|, "]") && Body(elems) != "" && Body(elems) == CharsText(Flat(elems)[0..])
    ensures !neg ==> At(t, i + |Opening(neg)|) != '!'
  {
    var k, xs := i + |Opening(neg)|, Flat(elems);
    assert xs[0..] == xs && xs != [] && xs[0] == elems[0].first;
    StandsSplit(t, i, Opening(neg), Body(elems) + "]");
    StandsSplit(t, k, Body(elems), "]");
    CharsFirst(t, k, xs, 0);
    CharReads(t, k, xs, 0);
  }

  /** A bracket is skipped as a whole. */
  lemma SkipBracket(t: string, i: nat, neg: bool, elems: seq<Elem>, sub: char, depth: nat)
    requires CString(t) && BodyOk(neg, elems) && Stands(t, i, ItemText(Bracket(neg, elems)))
    ensures Scan(t, i, sub, depth, -1, '\0') == Scan(t, i + |ItemText(Bracket(neg, elems))|, sub, depth, -1, '\0')
  {
    hide Body, BodyOk, Scan, Stands, Flat, Holds;
    var k := i + |Opening(neg)|;
    BodyStands(t, i, neg, elems);
    OpenBracket(t, i, neg, sub, depth);
    SkipChars(t, k, Flat(elems), 0, sub, depth, k);
    CloseBracket(t, k + |Body(elems)|, sub, depth, k);
  }

  lemma SkipLit(t: string, i: nat, c: char, esc: bool, sub: char, depth: nat)
    requires ItemOk(Lit(c, esc)) && Stands(t, i, ItemText(Lit(c, esc)))
    ensures Scan(t, i, sub, depth, -1, '\0') == Scan(t, i + |ItemText(Lit(c, esc))|, sub, depth, -1, '\0')
  {
    assert t[i..i + |ItemText(Lit(c, esc))|][0] == ItemText(Lit(c, esc))[0];
  }

  /** A lone character other than the structural ones. */
  lemma SkipOne(t: string, i: nat, c: char, sub: char, depth: nat)
    requires Stands(t, i, [c]) && c != '\\' && c != '[' && c != ']' && c != '(' && c != ')'
      && (c == '|' ==> sub != '|' || depth > 0)
    ensures Scan(t, i, sub, depth, -1, '\0') == Scan(t, i + 1, sub, depth, -1, '\0')
  {
    assert t[i..i + 1][0] == c;
  }

  lemma OpenParen(t: string, i: nat, op: Op, sub: char, depth: nat)
    requires Stands(t, i, OpText(op))
    ensures Scan(t, i, sub, depth, -1, '\0') == Scan(t, i + |OpText(op)|, sub, depth + 1, -1, '\0')
  {
    var u := OpText(op);
    assert t[i] == t[i..i + |u|][0];
    if op != Plain {
      assert t[i + 1] == t[i..i + |u|][1];
    }
  }

  lemma CloseParen(t: string, i: nat, sub: char, depth: nat)
    requires Stands(t, i, ")") && depth > 0
    ensures Scan(t, i, sub, depth, -1, '\0') == Scan(t, i + 1, sub, depth - 1, -1, '\0')
  {
    assert t[i..i + 1][0] == ')';
  }

  lemma {:induction false} SkipItem(t: string, i: nat, x: Item, sub: char, depth: nat)
    requires CString(t) && ItemOk(x) && Stands(t, i, ItemText(x))
    ensures Scan(t, i, sub, depth, -1, '\0') == Scan(t, i + |ItemText(x)|, sub, depth, -1, '\0')
    decreases x, 0
  {
    hide Scan, Stands, BodyOk, Body, OpText;
    match x
    case Lit(c, esc) => SkipLit(t, i, c, esc, sub, depth);
    case Any => SkipOne(t, i, '?', sub, depth);
    case Star => SkipOne(t, i, '*', sub, depth);
    case Bracket(neg, elems) => SkipBracket(t, i, neg, elems, sub, depth);
    case Sub(op, alts) =>
      var u := OpText(op) + AltsText(alts);
      StandsSplit(t, i, u, ")");
      StandsSplit(t, i, OpText(op), AltsText(alts));
      OpenParen(t, i, op, sub, depth);
      SkipAlts(t, i + |OpText(op)|, alts, sub, depth + 1);
      CloseParen(t, i + |u|, sub, depth + 1);
  }

  lemma {:induction false} SkipPat(t: string, i: nat, p: Pat, sub: char, depth: nat)
    requires CString(t) && PatOk(p) && Stands(t, i, PatText(p))
    ensures Scan(t, i, sub, depth, -1, '\0') == Scan(t, i + |PatText(p)|, sub, depth, -1, '\0')
    decreases p, 0
  {
    hide Scan, Stands, ItemOk, ItemText;
    match p
    case End =>
    case Cons(x, rest) =>
      StandsSplit(t, i, ItemText(x), PatText(rest));
      SkipItem(t, i, x, sub, depth);
      SkipPat(t, i + |ItemText(x)|, rest, sub, depth);
  }

  lemma {:induction false} SkipConj(t: string, i: nat, c: Conj, sub: char, depth: nat)
    requires CString(t) && ConjOk(c) && Stands(t, i, ConjText(c))
    ensures Scan(t, i, sub, depth, -1, '\0') == Scan(t, i + |ConjText(c)|, sub, depth, -1, '\0')
    decreases c, 0
  {
    hide Scan, Stands, PatOk, PatText;
    match c
    case Just(p) => SkipPat(t, i, p, sub, depth);
    case And(p, more) =>
      var u := PatText(p) + "&";
      StandsSplit(t, i, u, ConjText(more));
      StandsSplit(t, i, PatText(p), "&");
      SkipPat(t, i, p, sub, depth);
      SkipOne(t, i + |PatText(p)|, '&', sub, depth);
      SkipConj(t, i + |u|, more, sub, depth);
  }

  lemma {:induction false} SkipAlts(t: string, i: nat, a: Alts, sub: char, depth: nat)
    requires CString(t) && AltsOk(a) && Stands(t, i, AltsText(a)) && (sub != '|' || depth > 0)
    ensures Scan(t, i, sub, depth, -1, '\0') == Scan(t, i + |AltsText(a)|, sub, depth, -1, '\0')
    decreases a, 0
  {
    hide Scan, Stands, ConjOk, ConjText;
    match a
    case Only(c) => SkipConj(t, i, c, sub, depth);
    case Or(c, more) =>
      var u := ConjText(c) + "|";
      StandsSplit(t, i, u, AltsText(more));
      StandsSplit(t, i, ConjText(c), "|");
      SkipConj(t, i, c, sub, depth);
      SkipOne(t, i + |ConjText(c)|, '|', sub, depth);
      SkipAlts(t, i + |u|, more, sub, depth);
  }

  /** From the inside of a group, gobble finds exactly the end of the group. */
  lemma GroupEnd(t: string, i: nat, a: Alts)
    requires CString(t) && AltsOk(a) && Stands(t, i, AltsText(a) + ")")
    ensures Scan(t, i, '\0', 0, -1, '\0') == Some(i + |AltsText(a)| + 1)
  {
    hide AltsText, AltsOk;
    StandsSplit(t, i, AltsText(a), ")");
    SkipAlts(t, i, a, '\0', 0);
    var e := i + |AltsText(a)|;
    assert t[e..e + 1][0] == ')';
  }

  /** From the start of an alternative, gobble finds the next one, or that there is none. */
  lemma NextAlternative(t: string, i: nat, c: Conj)
    requires CString(t) && ConjOk(c) && Stands(t, i, ConjText(c))
    requires var e := i + |ConjText(c)|; At(t, e) == '|' || At(t, e) == ')' || At(t, e) == '\0'
    ensures var e := i + |ConjText(c)|; Scan(t, i, '|', 0, -1, '\0') == if At(t, e) == '|' then Some(e + 1) else None
  {
    hide ConjText, ConjOk;
    SkipConj(t, i, c, '|', 0);
  }
}
