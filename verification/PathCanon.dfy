/**
 pathcanon (src/cmd/3d/pathcanon.c:36-155) on absolute paths without the ... operator: one
 pass with a reader and a writer in the same buffer.
 */
module PathCanon {
  import opened PathNext

  // ------------------------------------------------------- what is canonical

  /** The components of a text: what is between slashes, with empty ones. */
  function Comps(t: string): (r: seq<string>)
    ensures |r| > 0
  {
    if t == "" then [""]
    else
      var r := Comps(t[1..]);
      if t[0] == '/' then [""] + r else [[t[0]] + r[0]] + r[1..]
  }

  function Pop(stack: seq<string>): seq<string> {
    if stack == [] then [] else stack[..|stack| - 1]
  }

  /** What a component does to the directories above it. */
  function Enter(stack: seq<string>, c: string): seq<string> {
    if c == "" || c == "." then stack else if c == ".." then Pop(stack) else stack + [c]
  }

  function Resolve(stack: seq<string>, cs: seq<string>): seq<string>
    decreases |cs|
  {
    if cs == [] then stack else Resolve(Enter(stack, cs[0]), cs[1..])
  }

  /** A directory as text, with a slash at the end. */
  function Dir(stack: seq<string>): (r: string)
    ensures r != "" && r[0] == '/' && r[|r| - 1] == '/'
  {
    if stack == [] then "/" else Dir(stack[..|stack| - 1]) + stack[|stack| - 1] + "/"
  }

  /** Whether a dot stands in the components at the end that are no names. */
  function Dotted(cs: seq<string>, dots: bool): bool {
    if cs == [] then dots
    else Dotted(cs[1..], if cs[0] == "." then true else if cs[0] == "" || cs[0] == ".." then dots else false)
  }

  /** The last component: a name stays without a slash, and a slash or a dot at the end stays. */
  function Last(stack: seq<string>, c: string, dots: bool): string {
    if c == "" then Dir(stack)
    else if c == "." then Dir(stack) + "."
    else if c == ".." then Dir(Pop(stack)) + (if dots then "." else "")
    else Dir(stack) + c
  }

  /** The canonical form of an absolute path. */
  function Canonical(path: string): string
    requires path != "" && path[0] == '/'
  {
    var cs := Comps(path[1..]);
    var n := |cs| - 1;
    Last(Resolve([], cs[..n]), cs[n], Dotted(cs[..n], false))
  }

  // ------------------------------------------------ the same, read from the left

  /** What comes of the rest of a path, from the start of a component on. */
  function Finish(stack: seq<string>, rest: string, dots: bool): string
    decreases |rest|, 1
  {
    if rest == "" then Dir(stack)
    else if rest[0] == '/' then Finish(stack, rest[1..], dots)
    else if rest == "." then Dir(stack) + "."
    else if rest[..1] == "." && rest[1] == '/' then Finish(stack, rest[2..], true)
    else if rest == ".." then Dir(Pop(stack)) + (if dots then "." else "")
    else if |rest| > 2 && rest[..3] == "../" then Finish(Pop(stack), rest[3..], dots)
    else FinishName(stack, [rest[0]], rest[1..])
  }

  /** The same from inside a name of which part was read. */
  function FinishName(stack: seq<string>, part: string, rest: string): string
    decreases |rest|, 0
  {
    if rest == "" then Dir(stack) + part
    else if rest[0] == '/' then Finish(stack + [part], rest[1..], false)
    else FinishName(stack, part + [rest[0]], rest[1..])
  }

  /** A component that is a name. */
  predicate IsName(c: string) {
    c != "" && c != "." && c != ".." && '/' !in c
  }

  ghost predicate Names(stack: seq<string>) {
    forall i :: 0 <= i < |stack| ==> IsName(stack[i])
  }

  // ------------------------------------------------------------ reading is meaning

  function Whole(stack: seq<string>, cs: seq<string>, dots: bool): string
    requires |cs| > 0
  {
    var n := |cs| - 1;
    Last(Resolve(stack, cs[..n]), cs[n], Dotted(cs[..n], dots))
  }

  lemma WholeStep(stack: seq<string>, cs: seq<string>, dots: bool)
    requires |cs| > 1
    ensures Whole(stack, cs, dots)
            == Whole(Enter(stack, cs[0]), cs[1..], if cs[0] == "." then true else if cs[0] == "" || cs[0] == ".."
              then dots else false)
  {
    var n := |cs| - 1;
    assert cs[..n][1..] == cs[1..][..n - 1];
  }

  lemma CompsParts(t: string, c: string, more: string)
    requires '/' !in c && t == c + "/" + more
    ensures Comps(t) == [c] + Comps(more)
    decreases |c|
  {
    if c == "" {
      assert t[1..] == more;
    } else {
      assert t[1..] == c[1..] + "/" + more;
      CompsParts(t[1..], c[1..], more);
      assert [t[0]] + c[1..] == c;
    }
  }

  lemma CompsLast(c: string)
    requires '/' !in c
    ensures Comps(c) == [c]
  {
    if c != "" {
      CompsLast(c[1..]);
      assert [c[0]] + c[1..] == c;
    }
  }

  lemma {:induction false} FinishMeans(stack: seq<string>, rest: string, dots: bool)
    ensures Finish(stack, rest, dots) == Whole(stack, Comps(rest), dots)
    decreases |rest|, 1
  {
    hide Comps, Dir, Resolve, Dotted;
    if rest == "" {
      CompsLast("");
      WholeOne(stack, "", dots);
    } else if rest[0] == '/' {
      CompsParts(rest, "", rest[1..]);
      StepOver(stack, "", rest[1..], dots);
      FinishMeans(stack, rest[1..], dots);
    } else if rest == "." {
      CompsLast(".");
      WholeOne(stack, ".", dots);
    } else if rest[..1] == "." && rest[1] == '/' {
      assert rest == "." + "/" + rest[2..];
      CompsParts(rest, ".", rest[2..]);
      StepOver(stack, ".", rest[2..], dots);
      FinishMeans(stack, rest[2..], true);
    } else if rest == ".." {
      CompsLast("..");
      WholeOne(stack, "..", dots);
    } else if |rest| > 2 && rest[..3] == "../" {
      assert rest == ".." + "/" + rest[3..];
      CompsParts(rest, "..", rest[3..]);
      StepOver(stack, "..", rest[3..], dots);
      FinishMeans(Pop(stack), rest[3..], dots);
    } else {
      assert rest == [rest[0]] + rest[1..];
      BeginsName(rest);
      NameMeans(stack, [rest[0]], rest[1..], dots);
    }
  }

  lemma WholeOne(stack: seq<string>, c: string, dots: bool)
    ensures Whole(stack, [c], dots) == Last(stack, c, dots)
  {
    assert [c][..0] == [];
  }

  lemma StepOver(stack: seq<string>, c: string, more: string, dots: bool)
    ensures var d := if c == "." then true else if c == "" || c == ".." then dots else false;
            Whole(stack, [c] + Comps(more), dots) == Whole(Enter(stack, c), Comps(more), d)
  {
    hide Comps, Dir, Resolve, Dotted, Enter;
    WholeStep(stack, [c] + Comps(more), dots);
    assert ([c] + Comps(more))[1..] == Comps(more);
  }

  /** The text up to the next slash. */
  function First(t: string): (r: string)
    ensures |r| <= |t| && r == t[..|r|] && '/' !in r && (|r| < |t| ==> t[|r|] == '/')
  {
    if t == "" || t[0] == '/' then "" else [t[0]] + First(t[1..])
  }

  /** The component that has begun is a name. */
  predicate Begins(part: string, rest: string) {
    part != "" && '/' !in part && IsName(part + First(rest))
  }

  lemma BeginsName(rest: string)
    requires rest != "" && rest[0] != '/' && rest != "." && rest != ".."
    requires !(rest[..1] == "." && rest[1] == '/') && !(|rest| > 2 && rest[..3] == "../")
    ensures Begins([rest[0]], rest[1..])
  {
    var f := First(rest);
    assert f == [rest[0]] + First(rest[1..]);
    assert |rest| > 2 ==> rest[..3] == [rest[0], rest[1], rest[2]];
  }

  lemma BeginsOn(part: string, rest: string)
    requires Begins(part, rest) && rest != "" && rest[0] != '/'
    ensures Begins(part + [rest[0]], rest[1..])
  {
    assert (part + [rest[0]]) + First(rest[1..]) == part + First(rest);
  }

  lemma {:induction false} NameMeans(stack: seq<string>, part: string, rest: string, dots: bool)
    requires Begins(part, rest)
    ensures FinishName(stack, part, rest) == Whole(stack, Comps(part + rest), dots)
    decreases |rest|, 0
  {
    hide Comps, Dir, Resolve, Dotted, Begins;
    BeginsFacts(part, rest);
    if rest == "" {
      assert part + rest == part;
      CompsLast(part);
      WholeOne(stack, part, dots);
    } else if rest[0] == '/' {
      assert part + rest == part + "/" + rest[1..];
      CompsParts(part + rest, part, rest[1..]);
      StepOver(stack, part, rest[1..], dots);
      EnterName(stack, part);
      FinishMeans(stack + [part], rest[1..], false);
    } else {
      assert part + rest == (part + [rest[0]]) + rest[1..];
      BeginsOn(part, rest);
      NameMeans(stack, part + [rest[0]], rest[1..], dots);
    }
  }

  lemma BeginsFacts(part: string, rest: string)
    requires Begins(part, rest)
    ensures part != "" && '/' !in part
    ensures rest == "" || rest[0] == '/' ==> IsName(part)
  {
    assert part + "" == part;
  }

  lemma EnterName(stack: seq<string>, c: string)
    requires IsName(c)
    ensures Enter(stack, c) == stack + [c]
  {
  }

  lemma CanonicalMeans(path: string)
    requires path != "" && path[0] == '/'
    ensures Canonical(path) == Finish([], path[1..], false)
  {
    FinishMeans([], path[1..], false);
  }

  // --------------------------------------------------------- size and idempotence

  lemma {:induction false} FinishSize(stack: seq<string>, rest: string, dots: bool)
    ensures |Finish(stack, rest, dots)| <= |Dir(stack)| + |rest|
    decreases |rest|, 1
  {
    hide Dir;
    PopSize(stack);
    if rest == "" || rest == "." || rest == ".." {
    } else if rest[0] == '/' {
      FinishSize(stack, rest[1..], dots);
    } else if rest[..1] == "." && rest[1] == '/' {
      FinishSize(stack, rest[2..], true);
    } else if |rest| > 2 && rest[..3] == "../" {
      FinishSize(Pop(stack), rest[3..], dots);
    } else {
      NameSize(stack, [rest[0]], rest[1..]);
    }
  }

  lemma {:induction false} NameSize(stack: seq<string>, part: string, rest: string)
    ensures |FinishName(stack, part, rest)| <= |Dir(stack)| + |part| + |rest|
    decreases |rest|, 0
  {
    hide Dir;
    if rest != "" {
      if rest[0] == '/' {
        DirMore(stack, part);
        FinishSize(stack + [part], rest[1..], false);
      } else {
        NameSize(stack, part + [rest[0]], rest[1..]);
      }
    }
  }

  lemma PopSize(stack: seq<string>)
    ensures |Dir(Pop(stack))| <= |Dir(stack)|
  {
  }

  lemma DirMore(stack: seq<string>, c: string)
    ensures Dir(stack + [c]) == Dir(stack) + c + "/"
  {
    assert (stack + [c])[..|stack|] == stack;
  }

  /** A canonical form is never longer than the path. */
  lemma NeverLonger(path: string)
    requires path != "" && path[0] == '/'
    ensures |Canonical(path)| <= |path|
  {
    CanonicalMeans(path);
    FinishSize([], path[1..], false);
  }

  /** What ends a canonical path behind its directory. */
  predicate IsEnd(x: string) {
    x == "" || x == "." || IsName(x)
  }

  lemma {:induction false} NamesKept(stack: seq<string>, cs: seq<string>)
    requires Names(stack) && forall i :: 0 <= i < |cs| ==> '/' !in cs[i]
    ensures Names(Resolve(stack, cs))
    decreases |cs|
  {
    if cs != [] {
      NamesKept(Enter(stack, cs[0]), cs[1..]);
    }
  }

  lemma {:induction false} CompsClean(t: string)
    ensures forall i :: 0 <= i < |Comps(t)| ==> '/' !in Comps(t)[i]
  {
    if t != "" {
      CompsClean(t[1..]);
    }
  }

  /** A canonical path is a directory of names and an end. */
  lemma CanonicalShape(path: string) returns (stack: seq<string>, x: string)
    requires path != "" && path[0] == '/'
    ensures Names(stack) && IsEnd(x) && Canonical(path) == Dir(stack) + x
  {
    hide Dir, Comps, Resolve, Dotted;
    var cs := Comps(path[1..]);
    var n := |cs| - 1;
    CompsClean(path[1..]);
    NothingNamed();
    NamesKept([], cs[..n]);
    stack := Resolve([], cs[..n]);
    var c, dots := cs[n], Dotted(cs[..n], false);
    if c == "" || c == "." || c == ".." {
      x := if c == "." || (c == ".." && dots) then "." else "";
      stack := if c == ".." then Pop(stack) else stack;
    } else {
      x := c;
    }
    assert Dir(stack) + "" == Dir(stack);
  }

  lemma NothingNamed()
    ensures Names([])
  {
  }

  /** Reading a directory of names gives that directory. */
  lemma {:induction false} DirComps(stack: seq<string>, x: string)
    requires Names(stack) && '/' !in x
    ensures Comps((Dir(stack) + x)[1..]) == stack + [x]
    decreases |stack|
  {
    hide Dir;
    if stack == [] {
      DirEmpty();
      assert ("/" + x)[1..] == x;
      CompsLast(x);
    } else {
      var rest, c := stack[..|stack| - 1], stack[|stack| - 1];
      assert rest + [c] == stack;
      DirMore(rest, c);
      DirComps(rest, c);
      CompsAppend((Dir(rest) + c)[1..], x);
      assert (Dir(rest) + c + "/" + x)[1..] == (Dir(rest) + c)[1..] + "/" + x;
    }
  }

  lemma DirEmpty()
    ensures Dir([]) == "/"
  {
  }

  lemma {:induction false} CompsAppend(t: string, x: string)
    requires '/' !in x
    ensures Comps(t + "/" + x) == Comps(t) + [x]
  {
    var u := t + "/" + x;
    if t == "" {
      assert u[1..] == x;
      CompsLast(x);
    } else {
      assert u[1..] == t[1..] + "/" + x;
      CompsAppend(t[1..], x);
    }
  }

  lemma {:induction false} ResolveNames(stack: seq<string>, cs: seq<string>)
    requires Names(cs)
    ensures Resolve(stack, cs) == stack + cs && !Dotted(cs, false)
    decreases |cs|
  {
    if cs != [] {
      ResolveNames(stack + [cs[0]], cs[1..]);
      assert stack + [cs[0]] + cs[1..] == stack + cs;
    }
  }

  /** A canonical path is its own canonical form. */
  lemma Idempotent(path: string)
    requires path != "" && path[0] == '/'
    ensures var c := Canonical(path); c != "" && c[0] == '/' && Canonical(c) == c
  {
    hide Dir, Comps, Resolve, Dotted, Canonical;
    var stack, x := CanonicalShape(path);
    DirComps(stack, x);
    ResolveNames([], stack);
    assert [] + stack == stack;
    CanonicalOf(stack, x);
  }

  lemma CanonicalOf(stack: seq<string>, x: string)
    requires Names(stack) && IsEnd(x) && Comps((Dir(stack) + x)[1..]) == stack + [x]
    requires Resolve([], stack) == stack && !Dotted(stack, false)
    ensures Canonical(Dir(stack) + x) == Dir(stack) + x
  {
    hide Dir, Comps, Resolve, Dotted;
    assert (stack + [x])[..|stack|] == stack;
    assert Dir(stack) + "" == Dir(stack);
  }

  // ------------------------------------------------------------ the dot at the end

  predicate EndsInDot(t: string) {
    |t| >= 2 && t[|t| - 2] == '/' && t[|t| - 1] == '.'
  }

  /** The last of these components is no name, and so back to one that is a dot. */
  ghost predicate DotNear(cs: seq<string>) {
    exists k :: 0 <= k < |cs| && cs[k] == "." && NoNames(cs, k + 1)
  }

  predicate NoNames(cs: seq<string>, from: nat) {
    forall j :: from <= j < |cs| ==> cs[j] == "" || cs[j] == "." || cs[j] == ".."
  }

  lemma {:induction false} DottedMeans(cs: seq<string>, dots: bool)
    ensures Dotted(cs, dots) <==> DotNear(cs) || (dots && NoNames(cs, 0))
    decreases |cs|
  {
    if cs != [] {
      var more := cs[1..];
      var now := if cs[0] == "." then true else if cs[0] == "" || cs[0] == ".." then dots else false;
      DottedMeans(more, now);
      assert forall j :: 1 <= j < |cs| ==> cs[j] == more[j - 1];
      assert forall k: nat :: k < |cs| ==> (NoNames(more, k) <==> NoNames(cs, k + 1));
      if DotNear(more) {
        var k :| 0 <= k < |more| && more[k] == "." && NoNames(more, k + 1);
        assert cs[k + 1] == "." && NoNames(cs, k + 1 + 1);
      }
      if DotNear(cs) {
        var k :| 0 <= k < |cs| && cs[k] == "." && NoNames(cs, k + 1);
        if k > 0 {
          assert more[k - 1] == "." && NoNames(more, k - 1 + 1);
        }
      }
    }
  }

  /** The canonical form ends in a dot exactly if the path does, or if it ends in .. and a dot stands before
      that with nothing but empty components, dots and .. in between: the .. leaves that dot in place, though
      the directory it stood for is gone. */
  lemma DotIff(path: string)
    requires path != "" && path[0] == '/'
    ensures var cs := Comps(path[1..]);
      var n := |cs| - 1;
      EndsInDot(Canonical(path)) <==> cs[n] == "." || (cs[n] == ".." && DotNear(cs[..n]))
  {
    hide Comps, Dir, Resolve, Dotted;
    var cs := Comps(path[1..]);
    var n := |cs| - 1;
    CompsClean(path[1..]);
    DottedMeans(cs[..n], false);
    var stack := Resolve([], cs[..n]);
    LastDot(stack, cs[n], Dotted(cs[..n], false));
  }

  lemma LastDot(stack: seq<string>, c: string, dots: bool)
    requires '/' !in c
    ensures EndsInDot(Last(stack, c, dots)) <==> c == "." || (c == ".." && dots)
  {
    hide Dir;
    var u := Last(stack, c, dots);
    if c != "" && c != "." && c != ".." {
      assert u[|u| - 1] == c[|c| - 1];
      if |c| > 1 {
        assert u[|u| - 2] == c[|c| - 2];
      }
    } else {
      assert Dir(Pop(stack)) + "" == Dir(Pop(stack));
    }
  }

  lemma CanonicalWhole(path: string, cs: seq<string>)
    requires path != "" && path[0] == '/' && Comps(path[1..]) == cs
    ensures Canonical(path) == Whole([], cs, false)
  {
    hide Comps, Resolve, Dotted, Last;
  }

  lemma WholeFirst(stack: seq<string>, c: string, cs: seq<string>, dots: bool)
    requires cs != []
    ensures Whole(stack, [c] + cs, dots)
            == Whole(Enter(stack, c), cs, if c == "." then true else if c == "" || c == ".." then dots else false)
  {
    hide Whole, Enter;
    WholeStep(stack, [c] + cs, dots);
    assert ([c] + cs)[1..] == cs;
  }

  /** A dot that is kept though its directory is gone. */
  lemma KeptDot()
    ensures Canonical("/a/./..") == "/."
  {
    hide Comps, Whole, Enter, Canonical, Pop, Dir;
    CompsLast("..");
    CompsParts("./..", ".", "..");
    CompsParts("a/./..", "a", "./..");
    assert "/a/./.."[1..] == "a/./..";
    CanonicalWhole("/a/./..", ["a"] + (["."] + [".."]));
    WholeFirst([], "a", ["."] + [".."], false);
    WholeFirst(Enter([], "a"), ".", [".."], false);
    OneUp();
  }

  lemma OneUp()
    ensures Whole(Enter(Enter([], "a"), "."), [".."], true) == "/."
  {
    WholeOne(Enter(Enter([], "a"), "."), "..", true);
    assert Pop(["a"]) == [] && Dir([]) == "/";
  }

  // ------------------------------------------------------------ in one buffer

  /** The buffer holds w up to and including j, and behind i what the path held there. */
  ghost predicate Holds(b: seq<char>, b0: seq<char>, j: int, i: int, w: string) {
    && |b| == |b0| && -1 <= j <= i < |b| && |w| == j + 1
    && (forall k :: 0 <= k <= j ==> b[k] == w[k])
    && forall k :: i < k < |b| ==> b[k] == b0[k]
  }

  /** The next component is the ... operator. */
  predicate AtDots(rest: string) {
    |rest| >= 3 && rest[..3] == "..." && (|rest| == 3 || rest[3] == '/')
  }

  /** No component is the operator. */
  predicate NoDots(path: string) {
    forall k :: 0 <= k < |path| && path[k] == '/' ==> !AtDots(path[k + 1..])
  }

  /** Behind the parent directory comes the last component, which has no slash. */
  lemma LastName(stack: seq<string>)
    requires Names(stack) && stack != []
    ensures var n := |Dir(Pop(stack))|;
            && n < |Dir(stack)| && Dir(stack)[..n] == Dir(Pop(stack))
            && forall k :: n <= k < |Dir(stack)| - 1 ==> Dir(stack)[k] != '/'
  {
    var st, c := Pop(stack), stack[|stack| - 1];
    assert Dir(stack) == Dir(st) + c + "/";
    assert forall k :: 0 <= k < |c| ==> Dir(stack)[|Dir(st)| + k] == c[k];
  }

  /** Going back to the slash before the last component. */
  method Back(buf: array<char>, dp0: nat, ghost stack: seq<string>) returns (dp: nat)
    requires dp0 < buf.Length && Names(stack) && buf[..dp0 + 1] == Dir(stack)
    ensures dp <= dp0 && buf[..dp + 1] == Dir(Pop(stack))
  {
    dp := dp0;
    if dp > 0 {
      LastName(stack);
      ghost var n := |Dir(Pop(stack))|;
      hide Dir;
      assert forall k :: 0 <= k <= dp0 ==> buf[k] == Dir(stack)[k];
      dp := dp - 1;
      while buf[dp] != '/'
        invariant n - 1 <= dp < dp0
        decreases dp
      {
        assert buf[n - 1] == Dir(Pop(stack))[n - 1] == '/';
        dp := dp - 1;
      }
      assert buf[..n] == Dir(stack)[..n];
    } else {
      RootOnly(stack);
    }
  }

  lemma RootOnly(stack: seq<string>)
    requires |Dir(stack)| == 1
    ensures Dir(Pop(stack)) == Dir(stack)
  {
  }

  /** One more character is written. */
  lemma Put(b: seq<char>, b0: seq<char>, j: int, i: int, w: string, x: char)
    requires Holds(b, b0, j, i, w) && j < i
    ensures Holds(b[j + 1 := x], b0, j + 1, i, w + [x])
  {
  }

  lemma Further(b: seq<char>, b0: seq<char>, j: int, i: int, i': int, w: string)
    requires Holds(b, b0, j, i, w) && i <= i' < |b|
    ensures Holds(b, b0, j, i', w)
  {
  }

  /** A name is read as far as no slash comes. */
  lemma {:induction false} NameFrom(stack: seq<string>, rest: string, n: nat)
    requires 1 <= n <= |rest| && Begins([rest[0]], rest[1..]) && forall k :: 0 <= k < n ==> rest[k] != '/'
    ensures FinishName(stack, [rest[0]], rest[1..]) == FinishName(stack, rest[..n], rest[n..])
      && Begins(rest[..n], rest[n..])
    decreases n
  {
    hide Begins;
    if n > 1 {
      NameFrom(stack, rest, n - 1);
      var part, more := rest[..n - 1], rest[n - 1..];
      BeginsOn(part, more);
      assert part + [more[0]] == rest[..n] && more[1..] == rest[n..];
    } else {
      assert rest[..1] == [rest[0]];
    }
  }

  /** From the start of a component that is a name, n characters on. */
  lemma NameStarts(stack: seq<string>, rest: string, dots: bool, n: nat)
    requires 1 <= n <= |rest| && forall k :: 0 <= k < n ==> rest[k] != '/'
    requires rest != "." && rest != ".." && !(rest[..1] == "." && rest[1] == '/') && !(|rest| > 2 && rest[..3] == "../")
    ensures Finish(stack, rest, dots) == FinishName(stack, rest[..n], rest[n..]) && Begins(rest[..n], rest[n..])
  {
    hide FinishName, Begins;
    BeginsName(rest);
    NameFrom(stack, rest, n);
  }

  /** Where the reader is, what was written, and what is to come of the rest. */
  ghost predicate Mid(b: seq<char>, b0: seq<char>, path: string, sp: int, dp: int, c: char, dots: bool,
                      stack: seq<string>, part: string)
    requires path != "" && path[0] == '/'
  {
    && 0 <= sp < |path| && Names(stack) && Holds(b, b0, dp, sp, Dir(stack) + part)
    && if c == '/' then part == "" && path[sp] == '/' && Canonical(path) == Finish(stack, path[sp + 1..], dots)
       else Begins(part, path[sp + 1..]) && Canonical(path) == FinishName(stack, part, path[sp + 1..])
  }

  /** All is read; a dot may be left to be written. */
  ghost predicate Over(b: seq<char>, b0: seq<char>, path: string, dp: int, dots: bool, w: string)
    requires path != "" && path[0] == '/'
  {
    && Holds(b, b0, dp, |path|, w) && dp < |path|
    && (if dots then Canonical(path) == w + "." && w != "" && w[|w| - 1] == '/' && dp + 2 <= |path|
       else Canonical(path) == w)
  }

  /** The next character is about to be copied: the start of a name, or part of one. */
  ghost predicate Pending(b: seq<char>, b0: seq<char>, path: string, sp: int, dp: int, stack: seq<string>, part: string)
    requires path != "" && path[0] == '/'
  {
    && 0 <= dp < sp <= |path| && Names(stack) && Holds(b, b0, dp, sp - 1, Dir(stack) + part)
    && if part == "" then
         (sp < |path| ==> path[sp] != '/' && path[sp] != '.')
           && (exists d: bool :: Canonical(path) == Finish(stack, path[sp..], d))
       else
         Begins(part, path[sp..]) && Canonical(path) == FinishName(stack, part, path[sp..])
  }

  datatype Act = Continue | Break | Copy

  lemma CharAt(b: seq<char>, b0: seq<char>, path: string, j: int, i: int, w: string, k: nat)
    requires IsStr(b0, 0, path) && Holds(b, b0, j, i, w) && i < k <= |path|
    ensures b[k] == if k < |path| then path[k] else '\0'
    ensures k < |path| ==> path[k] != '\0'
  {
  }

  /** Redundant slashes and dots. */
  lemma Skips(b: seq<char>, b0: seq<char>, path: string, sp: nat, dp: int, dots: bool, stack: seq<string>)
    requires path != "" && path[0] == '/' && Mid(b, b0, path, sp, dp, '/', dots, stack, "") && |path| < |b|
    ensures sp + 1 < |path| && path[sp + 1] == '/' ==> Mid(b, b0, path, sp + 1, dp, '/', dots, stack, "")
    ensures sp + 2 < |path| && path[sp + 1] == '.' && path[sp + 2] == '/'
      ==> Mid(b, b0, path, sp + 2, dp, '/', true, stack, "")
    ensures sp + 2 == |path| && path[sp + 1] == '.' ==> Over(b, b0, path, dp, true, Dir(stack))
  {
    hide Canonical, Dir;
    var rest := path[sp + 1..];
    assert Dir(stack) + "" == Dir(stack);
    if rest != "" && rest[0] == '/' {
      assert rest[1..] == path[sp + 2..];
    } else if |rest| > 1 && rest[0] == '.' && rest[1] == '/' {
      assert rest[2..] == path[sp + 3..] && rest[..1] == ".";
    } else if |rest| == 1 && rest[0] == '.' {
      assert rest == ".";
    }
  }

  /** Up to the parent directory. */
  lemma Ups(b: seq<char>, b0: seq<char>, path: string, sp: nat, dp: int, dp': nat, dots: bool, stack: seq<string>)
    requires path != "" && path[0] == '/' && Mid(b, b0, path, sp, dp, '/', dots, stack, "") && |path| < |b|
    requires dp' <= dp && b[..dp' + 1] == Dir(Pop(stack))
    requires sp + 2 < |path| && path[sp + 1] == '.' && path[sp + 2] == '.'
    ensures sp + 3 < |path| && path[sp + 3] == '/' ==> Mid(b, b0, path, sp + 3, dp', '/', dots, Pop(stack), "")
    ensures sp + 3 == |path| ==> Over(b, b0, path, dp', dots, Dir(Pop(stack)))
  {
    hide Canonical, Dir;
    var rest := path[sp + 1..];
    assert Dir(Pop(stack)) + "" == Dir(Pop(stack));
    if |rest| > 2 && rest[2] == '/' {
      assert rest[3..] == path[sp + 4..] && rest[..3] == "../";
    } else if |rest| == 2 {
      assert rest == "..";
    }
  }

  /** A name that starts with n dots, or with another character. */
  lemma Starts(b: seq<char>, b0: seq<char>, path: string, sp: nat, dp: int, dots: bool, stack: seq<string>, n: nat)
    requires path != "" && path[0] == '/' && Mid(b, b0, path, sp, dp, '/', dots, stack, "") && |path| < |b|
    requires n <= 3 && sp + n < |path| && path[sp + 1..sp + 1 + n] == "..."[..n]
    requires n == 1 ==> sp + 2 < |path| && path[sp + 2] != '.'
    requires if n == 0 then sp + 1 < |path| ==> path[sp + 1] != '/' && path[sp + 1] != '.'
      else sp + n + 1 < |path| && path[sp + n + 1] != '/'
    ensures n == 0 ==> Pending(b, b0, path, sp + 1, dp, stack, "")
    ensures n > 0 ==> Begins(path[sp + 1..sp + 1 + n], path[sp + 1 + n..])
                      && Canonical(path) == FinishName(stack, path[sp + 1..sp + 1 + n], path[sp + 1 + n..])
  {
    hide Canonical, Dir;
    var rest := path[sp + 1..];
    if n == 0 {
      assert Canonical(path) == Finish(stack, path[sp + 1..], dots);
    } else {
      assert rest[..n] == path[sp + 1..sp + 1 + n] && rest[n..] == path[sp + 1 + n..];
      assert forall k :: 0 <= k < n ==> rest[k] == rest[..n][k] == '.';
      assert rest[1] == path[sp + 2] && (|rest| > 2 ==> rest[..3] == [rest[0], rest[1], rest[2]]);
      assert rest[n] != '/' && |rest| > n;
      NameStarts(stack, rest, dots, n);
    }
  }

  /** The next character is copied; at the end of the text there is none. */
  lemma Copied(b: seq<char>, b0: seq<char>, path: string, sp: nat, dp: int, stack: seq<string>, part: string)
    requires path != "" && path[0] == '/' && Pending(b, b0, path, sp, dp, stack, part) && IsStr(b0, 0, path)
    ensures sp == |path| ==> Over(b, b0, path, dp, false, Dir(stack) + part)
    ensures sp < |path| && path[sp] == '/' ==>
              Mid(b[dp + 1 := path[sp]], b0, path, sp, dp + 1, '/', false, stack + [part], "")
    ensures sp < |path| && path[sp] != '/' ==>
              Mid(b[dp + 1 := path[sp]], b0, path, sp, dp + 1, path[sp], false, stack, part + [path[sp]])
  {
    hide Canonical, Dir, Begins, Finish;
    var rest := path[sp..];
    if rest == "" {
      FinishNothing(stack);
      assert Dir(stack) + "" == Dir(stack);
    } else {
      Further(b, b0, dp, sp - 1, sp, Dir(stack) + part);
      Put(b, b0, dp, sp, Dir(stack) + part, path[sp]);
      assert rest[1..] == path[sp + 1..];
      assert Dir(stack) + part + [path[sp]] == Dir(stack) + (part + [path[sp]]);
      if part != "" {
        BeginsFacts(part, rest);
        if path[sp] == '/' {
          DirMore(stack, part);
          assert Dir(stack + [part]) + "" == Dir(stack) + part + ['/'];
        } else {
          BeginsOn(part, rest);
        }
      } else {
        var d: bool :| Canonical(path) == Finish(stack, rest, d);
        PlainStart(stack, rest, d);
        assert "" + [path[sp]] == [path[sp]];
      }
    }
  }

  lemma FinishNothing(stack: seq<string>)
    ensures forall d :: Finish(stack, "", d) == Dir(stack)
    ensures FinishName(stack, "", "") == Dir(stack) + ""
  {
  }

  lemma PlainStart(stack: seq<string>, rest: string, d: bool)
    requires rest != "" && rest[0] != '/' && rest[0] != '.'
    ensures Finish(stack, rest, d) == FinishName(stack, [rest[0]], rest[1..]) && Begins([rest[0]], rest[1..])
  {
    hide FinishName, Begins, Dir;
    BeginsName(rest);
  }

  /** Copies the dots that a name starts with. */
  method PutDots(buf: array<char>, dp: nat, n: nat)
    requires dp + n < buf.Length
    modifies buf
    ensures forall k :: dp < k <= dp + n ==> buf[k] == '.'
    ensures forall k :: 0 <= k <= dp || dp + n < k < buf.Length ==> buf[k] == old(buf[k])
  {
    var i := 0;
    while i < n
      invariant 0 <= i <= n
      invariant forall k :: dp < k <= dp + i ==> buf[k] == '.'
      invariant forall k :: 0 <= k <= dp || dp + i < k < buf.Length ==> buf[k] == old(buf[k])
    {
      i := i + 1;
      buf[dp + i] := '.';
    }
  }

  /** The start of a component: it is skipped or acted on, or its dots are copied. */
  method Start(buf: array<char>, in2d: bool, sp0: nat, dp0: nat, dots0: bool, ghost b0: seq<char>, ghost path: string,
               ghost stack: seq<string>)
    returns (act: Act, sp: nat, dp: nat, c: char, dots: bool, ghost stack': seq<string>, ghost part: string)
    requires path != "" && path[0] == '/' && IsStr(b0, 0, path) && (in2d || NoDots(path))
    requires Mid(buf[..], b0, path, sp0, dp0, '/', dots0, stack, "")
    modifies buf
    ensures act == Continue ==> c == '/' && sp0 < sp && Mid(buf[..], b0, path, sp, dp, c, dots, stack', "")
    ensures act == Break ==> Over(buf[..], b0, path, dp, dots, Dir(stack'))
    ensures act == Copy ==> sp0 < sp && Pending(buf[..], b0, path, sp, dp, stack', part)
  {
    hide Canonical, Dir, Finish, FinishName, Begins, Mid, Pending, Over, Holds, NoDots, Names, Pop;
    stack', part, dp, dots, c := stack, "", dp0, dots0, '/';
    ghost var b, w := buf[..], Dir(stack) + "";
    MidHolds(b, b0, path, sp0, dp, dots, stack);
    sp := sp0 + 1;
    Skips(b, b0, path, sp0, dp, dots, stack);
    CharAt(b, b0, path, dp, sp0, w, sp);
    if buf[sp] == '/' {
      return Continue, sp, dp, c, dots, stack, "";
    }
    act := Copy;
    if buf[sp] != '.' {
      Starts(b, b0, path, sp0, dp, dots, stack, 0);
      return;
    }
    sp := sp + 1;
    CharAt(b, b0, path, dp, sp0, w, sp);
    c := buf[sp];
    if c == '/' {
      return Continue, sp, dp, c, true, stack, "";
    }
    if c == '\0' {
      return Break, sp, dp, c, true, stack, "";
    }
    var n := 1;
    if c == '.' {
      sp := sp + 1;
      CharAt(b, b0, path, dp, sp0, w, sp);
      c := buf[sp];
      n := 2;
      if c == '\0' || c == '/' {
        dp := Back(buf, dp, stack);
        Ups(b, b0, path, sp0, dp0, dp, dots, stack);
        return if c == '\0' then Break else Continue, sp, dp, c, dots, Pop(stack), "";
      }
      if c == '.' && !in2d {
        sp := sp + 1;
        CharAt(b, b0, path, dp, sp0, w, sp);
        c := buf[sp];
        n := 3;
        if c == '\0' || c == '/' {
          // the ... operator, which the path does not have
          Operator(path, sp0);
          assert false;
        }
      }
    }
    PutDots(buf, dp, n);
    dp := dp + n;
    part := "..."[..n];
    assert path[sp0 + 1..sp0 + 1 + n] == part;
    Starts(b, b0, path, sp0, dp0, dots, stack, n);
    DotsPut(b, buf[..], b0, sp0, dp0, Dir(stack), n);
    DotsPending(buf[..], b0, path, sp0, dp0, stack, n);
  }

  lemma MidHolds(b: seq<char>, b0: seq<char>, path: string, sp: int, dp: int, dots: bool, stack: seq<string>)
    requires path != "" && path[0] == '/' && Mid(b, b0, path, sp, dp, '/', dots, stack, "") && IsStr(b0, 0, path)
    ensures Holds(b, b0, dp, sp, Dir(stack) + "") && 0 <= dp <= sp < |path| < |b| && path[sp] == '/' && Names(stack)
    ensures b[..dp + 1] == Dir(stack)
  {
    hide Canonical, Finish, Dir;
    assert Dir(stack) + "" == Dir(stack);
  }

  lemma DotsPending(b: seq<char>, b0: seq<char>, path: string, sp: nat, dp: nat, stack: seq<string>, n: nat)
    requires path != "" && path[0] == '/' && Names(stack) && 1 <= n <= 3 && dp <= sp && sp + 1 + n <= |path|
    requires path[sp + 1..sp + 1 + n] == "..."[..n] && Holds(b, b0, dp + n, sp + n, Dir(stack) + "..."[..n])
    requires Begins("..."[..n], path[sp + 1 + n..])
    requires Canonical(path) == FinishName(stack, "..."[..n], path[sp + 1 + n..])
    ensures Pending(b, b0, path, sp + 1 + n, dp + n, stack, "..."[..n])
  {
    hide Canonical, FinishName, Begins, Holds;
  }

  lemma Operator(path: string, sp: nat)
    requires sp + 3 < |path| && path[sp] == '/' && path[sp + 1] == '.' && path[sp + 2] == '.' && path[sp + 3] == '.'
    requires sp + 4 == |path| || path[sp + 4] == '/'
    ensures !NoDots(path)
  {
    var rest := path[sp + 1..];
    assert rest[..3] == "...";
    assert AtDots(rest);
  }

  /** The dots of a name are in place. */
  lemma DotsPut(b: seq<char>, b': seq<char>, b0: seq<char>, sp: nat, dp: nat, w: string, n: nat)
    requires Holds(b, b0, dp, sp, w + "") && 1 <= n <= 3 && sp + n + 1 < |b|
    requires |b'| == |b| && forall k :: dp < k <= dp + n ==> b'[k] == '.'
    requires forall k :: 0 <= k <= dp || dp + n < k < |b| ==> b'[k] == b[k]
    ensures Holds(b', b0, dp + n, sp + n, w + "..."[..n])
  {
  }

  lemma Begun(b0: seq<char>, path: string)
    requires IsStr(b0, 0, path) && path != "" && path[0] == '/'
    ensures Mid(b0, b0, path, 0, 0, '/', false, [], "")
  {
    hide Canonical, Finish;
    NothingNamed();
    DirEmpty();
    CanonicalMeans(path);
  }

  lemma MidBounds(b: seq<char>, b0: seq<char>, path: string, sp: int, dp: int, c: char, dots: bool,
                  stack: seq<string>, part: string)
    requires path != "" && path[0] == '/' && Mid(b, b0, path, sp, dp, c, dots, stack, part) && IsStr(b0, 0, path)
    ensures 0 <= dp <= sp < |path| < |b| && (c == '/' ==> part == "")
  {
    hide Canonical, Finish, FinishName, Begins;
  }

  lemma Goes(b: seq<char>, b0: seq<char>, path: string, sp: int, dp: int, c: char, dots: bool, stack: seq<string>,
             part: string)
    requires path != "" && path[0] == '/' && c != '/' && Mid(b, b0, path, sp - 1, dp, c, dots, stack, part)
      && IsStr(b0, 0, path)
    ensures Pending(b, b0, path, sp, dp, stack, part)
  {
    hide Canonical, Finish, FinishName, First;
  }

  lemma PendingBounds(b: seq<char>, b0: seq<char>, path: string, sp: int, dp: int, stack: seq<string>, part: string)
    requires path != "" && path[0] == '/' && Pending(b, b0, path, sp, dp, stack, part) && IsStr(b0, 0, path)
    ensures 0 <= dp < sp <= |path| < |b| && b[sp] == (if sp < |path| then path[sp] else '\0')
    ensures sp < |path| ==> path[sp] != '\0'
  {
    hide Canonical, Finish, FinishName, Begins;
  }

  lemma {:induction false} FinishClean(stack: seq<string>, rest: string, dots: bool)
    requires NoNul(Dir(stack)) && NoNul(rest)
    ensures NoNul(Finish(stack, rest, dots))
    decreases |rest|, 1
  {
    hide Dir;
    PopClean(stack);
    if rest == "" || rest == "." || rest == ".." {
    } else if rest[0] == '/' {
      FinishClean(stack, rest[1..], dots);
    } else if rest[..1] == "." && rest[1] == '/' {
      FinishClean(stack, rest[2..], true);
    } else if |rest| > 2 && rest[..3] == "../" {
      FinishClean(Pop(stack), rest[3..], dots);
    } else {
      NameClean(stack, [rest[0]], rest[1..]);
    }
  }

  lemma {:induction false} NameClean(stack: seq<string>, part: string, rest: string)
    requires NoNul(Dir(stack)) && NoNul(part) && NoNul(rest)
    ensures NoNul(FinishName(stack, part, rest))
    decreases |rest|, 0
  {
    hide Dir;
    if rest != "" {
      if rest[0] == '/' {
        DirMore(stack, part);
        FinishClean(stack + [part], rest[1..], false);
      } else {
        NameClean(stack, part + [rest[0]], rest[1..]);
      }
    }
  }

  lemma PopClean(stack: seq<string>)
    requires NoNul(Dir(stack))
    ensures NoNul(Dir(Pop(stack)))
  {
    if stack != [] {
      var d := Dir(Pop(stack));
      assert forall k :: 0 <= k < |d| ==> d[k] == Dir(stack)[k];
    }
  }

  lemma CanonicalClean(path: string, b0: seq<char>)
    requires path != "" && path[0] == '/' && IsStr(b0, 0, path)
    ensures NoNul(Canonical(path))
  {
    CanonicalMeans(path);
    DirEmpty();
    var rest := path[1..];
    forall k | 0 <= k < |rest|
      ensures rest[k] != '\0'
    {
      assert rest[k] == path[k + 1];
    }
    FinishClean([], rest, false);
  }

  /** The dot that is kept and the NUL. */
  method Ending(buf: array<char>, dp0: nat, dots: bool, ghost b0: seq<char>, ghost path: string, ghost w: string)
    returns (dp: nat)
    requires path != "" && path[0] == '/' && Over(buf[..], b0, path, dp0, dots, w) && IsStr(b0, 0, path)
    modifies buf
    ensures dp == |Canonical(path)| && IsStr(buf[..], 0, Canonical(path))
    ensures forall k :: |path| < k < buf.Length ==> buf[k] == b0[k]
  {
    hide Canonical;
    CanonicalClean(path, b0);
    ghost var c := Canonical(path);
    assert forall k :: 0 <= k <= dp0 ==> buf[k] == c[k];
    dp := dp0;
    if dots {
      if buf[dp] != '/' {
        // only in relative paths
        assert false;
      }
      dp := dp + 1;
      buf[dp] := '.';
    }
    dp := dp + 1;
    buf[dp] := '\0';
    assert |c| == dp && forall k :: 0 <= k < dp ==> buf[k] == c[k];
  }

  /**
   pathcanon on an absolute path: what is written never passes what is still to be read, and
   in the end the canonical form stands in the buffer.
   */
  method Canon(buf: array<char>, in2d: bool, ghost path: string) returns (end: nat)
    requires IsStr(buf[..], 0, path) && path != "" && path[0] == '/' && (in2d || NoDots(path))
    modifies buf
    ensures end == |Canonical(path)| && IsStr(buf[..], 0, Canonical(path))
    ensures forall k :: |path| < k < buf.Length ==> buf[k] == old(buf[k])
  {
    hide Canonical, Dir, Finish, FinishName, Begins, Pending, Mid, Over, IsStr, Holds, NoDots;
    ghost var b0 := buf[..];
    Begun(b0, path);
    var dp, sp, c, dots := 0, 0, '/', false;
    ghost var stack: seq<string>, part: string := [], "";
    while true
      invariant Mid(buf[..], b0, path, sp, dp, c, dots, stack, part)
      decreases |path| - sp
    {
      MidBounds(buf[..], b0, path, sp, dp, c, dots, stack, part);
      ghost var sp0 := sp;
      if c == '/' {
        var act;
        act, sp, dp, c, dots, stack, part := Start(buf, in2d, sp, dp, dots, b0, path, stack);
        if act == Continue {
          MidBounds(buf[..], b0, path, sp, dp, c, dots, stack, "");
          part := "";
          continue;
        }
        if act == Break {
          part := "";
          assert Dir(stack) + "" == Dir(stack);
          break;
        }
      } else {
        sp := sp + 1;
        Goes(buf[..], b0, path, sp, dp, c, dots, stack, part);
      }
      Copied(buf[..], b0, path, sp, dp, stack, part);
      PendingBounds(buf[..], b0, path, sp, dp, stack, part);
      dots := false;
      c := buf[sp];
      if c == '\0' {
        break;
      }
      ghost var b := buf[..];
      dp := dp + 1;
      buf[dp] := c;
      assert buf[..] == b[dp := c];
      if c == '/' {
        stack, part := stack + [part], "";
      } else {
        part := part + [c];
      }
    }
    end := Ending(buf, dp, dots, b0, path, Dir(stack) + part);
  }
}
