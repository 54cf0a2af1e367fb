/**
 Patterns as text (src/cmd/3d/strmatch.c:33-55): how a pattern is written, and what it means
 that a pattern stands at a place of a text.
 */
module PatternText {
  import opened Pattern

  /** The character at i; the end of the text reads as NUL. */
  function At(t: string, i: nat): char {
    if i < |t| then t[i] else '\0'
  }

  predicate IsDigit(c: char) { '0' <= c <= '9' }

  /** Characters that stand for themselves outside brackets. */
  predicate PlainChar(c: char) {
    c != '\0' && c != '\\' && c != '*' && c != '?' && c != '[' && c != '(' && c != '|' && c != '&' && c != ')'
  }

  /** Characters that end a sequence of items. */
  predicate IsTerm(c: char) {
    c == '\0' || c == '|' || c == '&' || c == ')'
  }

  /** Unescaped characters that open a group when ( follows. */
  predicate OpensGroup(c: char) {
    c == '@' || c == '!' || c == '+' || c == '*' || c == '?'
  }

  function OpText(op: Op): string {
    match op
    case Plain => "("
    case Exactly => "@("
    case Optional => "?("
    case ZeroOrMore => "*("
    case OneOrMore => "+("
    case Not => "!("
  }

  function CharText(x: SetChar): string {
    if x.esc then ['\\', x.c] else [x.c]
  }

  function CharsText(xs: seq<SetChar>): string {
    if xs == [] then "" else CharText(xs[0]) + CharsText(xs[1..])
  }

  const DASH := SetChar('-', false)

  /** The characters behind the first of an element, with the dashes that join them. */
  function Joined(more: seq<SetChar>): seq<SetChar> {
    if more == [] then [] else [DASH, more[0]] + Joined(more[1..])
  }

  /** The characters of a bracket as they are written. */
  function Flat(elems: seq<Elem>): seq<SetChar> {
    if elems == [] then [] else ([elems[0].first] + Joined(elems[0].more)) + Flat(elems[1..])
  }

  function Opening(neg: bool): string {
    if neg then "[!" else "["
  }

  function Body(elems: seq<Elem>): string {
    CharsText(Flat(elems))
  }

  function ItemText(x: Item): string
    decreases x, 0
  {
    match x
    case Lit(c, esc) => if esc then ['\\', c] else [c]
    case Any => "?"
    case Star => "*"
    case Bracket(neg, elems) => Opening(neg) + (Body(elems) + "]")
    case Sub(op, alts) => OpText(op) + AltsText(alts) + ")"
  }

  function PatText(p: Pat): string {
    match p
    case End => ""
    case Cons(x, rest) => ItemText(x) + PatText(rest)
  }

  function ConjText(c: Conj): string {
    match c
    case Just(p) => PatText(p)
    case And(p, more) => PatText(p) + "&" + ConjText(more)
  }

  function AltsText(a: Alts): string {
    match a
    case Only(c) => ConjText(c)
    case Or(c, more) => ConjText(c) + "|" + AltsText(more)
  }

  // ---------------------------------------------------------- well-formedness

  /** Any character may be in a bracket; a backslash escapes. */
  predicate CharOk(x: SetChar) {
    x.c != '\0' && (x.c == '\\' ==> x.esc)
  }

  /** A ] that is not escaped. */
  predicate Closes(x: SetChar) {
    x == SetChar(']', false)
  }

  /** What stands behind an unescaped [ that opens a class or a collating element. */
  predicate Delimits(x: SetChar) {
    !x.esc && (x.c == ':' || x.c == '=' || x.c == '.')
  }

  /** The k-th character of a bracket is read as a character: it is not a ] behind the first, and no class
      or collating element starts there. */
  predicate FlatOk(xs: seq<SetChar>, k: nat)
    requires k < |xs|
  {
    && CharOk(xs[k]) && (Closes(xs[k]) ==> k == 0)
    && (xs[k] == SetChar('[', false) && k + 1 < |xs| ==> !Delimits(xs[k + 1]))
  }

  /** A dash that is not escaped starts an element only if it is the first or the last character. */
  predicate StartsOk(elems: seq<Elem>, i: nat)
    requires i < |elems|
  {
    elems[i].first == DASH ==> i == 0 || (i == |elems| - 1 && elems[i].more == [])
  }

  /** The bracket is read as these elements, and its first character not as a negation. */
  predicate BodyOk(neg: bool, elems: seq<Elem>) {
    && elems != [] && (!neg ==> elems[0].first != SetChar('!', false))
    && (forall k :: 0 <= k < |Flat(elems)| ==> FlatOk(Flat(elems), k))
    && forall i :: 0 <= i < |elems| ==> StartsOk(elems, i)
  }

  /** Escaped digits are back references, which are not patterns of this kind. */
  predicate ItemOk(x: Item)
    decreases x, 0
  {
    match x
    case Lit(c, esc) => if esc then c != '\0' && !IsDigit(c) else PlainChar(c)
    case Any => true
    case Star => true
    case Bracket(neg, elems) => BodyOk(neg, elems)
    case Sub(_, alts) => AltsOk(alts)
  }

  /** The item is written as a character that a following ( would turn into a group. */
  predicate Opens(x: Item) {
    x.Any? || x.Star? || (x.Lit? && !x.esc && OpensGroup(x.c))
  }

  predicate PatOk(p: Pat) {
    match p
    case End => true
    case Cons(x, rest) =>
      ItemOk(x) && PatOk(rest) && (Opens(x) && rest.Cons? && rest.item.Sub? ==> rest.item.op != Plain)
  }

  predicate ConjOk(c: Conj) {
    match c
    case Just(p) => PatOk(p)
    case And(p, more) => PatOk(p) && ConjOk(more)
  }

  predicate AltsOk(a: Alts) {
    match a
    case Only(c) => ConjOk(c)
    case Or(c, more) => ConjOk(c) && AltsOk(more)
  }

  // -------------------------------------------------------- standing at a place

  /** The string u stands at i. */
  predicate Stands(t: string, i: nat, u: string) {
    i + |u| <= |t| && t[i..i + |u|] == u
  }

  lemma StandsSplit(t: string, i: nat, u: string, v: string)
    ensures Stands(t, i, u + v) <==> Stands(t, i, u) && Stands(t, i + |u|, v)
  {
    if Stands(t, i, u + v) {
      assert t[i..i + |u|] == (u + v)[..|u|];
      assert t[i + |u|..i + |u| + |v|] == (u + v)[|u|..];
    }
    if Stands(t, i, u) && Stands(t, i + |u|, v) {
      assert t[i..i + |u + v|] == t[i..i + |u|] + t[i + |u|..i + |u| + |v|];
    }
  }
}
