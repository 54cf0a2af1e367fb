/**
 A Mamfile in which a target is skipped as up to date though the source of its library is newer: the
 library is bound (src/cmd/INIT/mamake.c:1601-1606), and its file was not written again.
 */
module MakeStale {
  import opened MakeLog
  import opened MakeTrace
  import opened MakeClaims
  import opened MakeCauses
  import opened MakeDeep
  import opened Wrappers

  const STALE: seq<Line> := [
    Line.Make("lib.a", {}), Line.Make("src.c", {}), Done("src.c", {}), Exec("ar"), Done("lib.a", {}),
    Line.Make("prog", {}), Bind(["lib.a"], {}), Exec("cc"), Done("prog", {})]

  /** There is but one view. */
  ghost predicate NoneLower(env: Env) {
    forall pos, q :: env.find(pos, q).Some? ==> !env.find(pos, q).value.lower
  }

  /** All is active and nothing forced. The source is newer than the program, the file of the library is not,
      when it is bound; whatever the shell does. */
  ghost predicate StaleEnv(env: Env, lib: nat, src: nat, prog: nat) {
    && env.lines == STALE && env.targets == {} && !env.options.force
    && 0 < prog && lib <= prog < src
    && env.find(2, "src.c") == Some(Found(src, false)) && env.find(7, "lib.a") == Some(Found(lib, false))
    && env.find(6, "prog") == Some(Found(prog, false)) && NoneLower(env)
  }

  // Reading a block line by line.

  lemma FirstLine(env: Env, acts: seq<Act>, f: Act)
    requires Fair(env.options, env.lines, acts, f) && f.Block? && f.at < |env.lines|
    ensures |f.track| == |f.looks| > 0 && f.track[0] == f.at
  {
    hide LookOk, Highest, Texts, Decided, OwnTime, Fails;
    assert FlowAt(env.lines, acts, f, 0);
  }

  lemma NextLine(env: Env, acts: seq<Act>, f: Act, i: nat)
    requires Fair(env.options, env.lines, acts, f) && f.Block? && i < |f.track| == |f.looks| && f.track[i] < |env.lines|
    requires !env.lines[f.track[i]].Done? && After(env.lines, acts, f, i) < |env.lines|
    ensures i + 1 < |f.track| && f.track[i + 1] == After(env.lines, acts, f, i)
  {
    hide LookOk, Highest, Texts, Decided, OwnTime, Fails, After;
    assert FlowAt(env.lines, acts, f, i + 1);
  }

  lemma LastLine(env: Env, acts: seq<Act>, f: Act, i: nat)
    requires Fair(env.options, env.lines, acts, f) && f.Block? && i < |f.track| && f.track[i] < |env.lines|
    requires env.lines[f.track[i]].Done?
    ensures |f.track| == i + 1 && !f.outcome.Unfinished? && f.stop == f.track[i] + 1
  {
    hide LookOk, Highest, Texts, Decided, OwnTime, Fails;
    if !f.outcome.Unfinished? {
      StopsBehindDone(env, acts, f);
    }
  }

  /** A make line of a rule that is not being made leads to its block. */
  lemma ToBlock(env: Env, acts: seq<Act>, ties: seq<Tie>, log: seq<Event>, a: nat, i: nat, q: string) returns (b: nat)
    requires Sound(env, acts, ties, log) && a < |acts| && acts[a].Block?
    requires i < |acts[a].track| == |acts[a].looks| && acts[a].track[i] < |env.lines|
    requires env.lines[acts[a].track[i]] == Line.Make(q, {}) && q !in acts[a].making
    ensures b < a && acts[b].Block? && acts[b].rule == q && acts[b].at == acts[a].track[i] + 1
    ensures acts[b].making == acts[a].making + {q} && UsesOrIgnores(acts[a], i, b)
    ensures After(env.lines, acts[..a], acts[a], i) == acts[b].stop
  {
    RecordIs(env, acts, ties, log, a);
    assert LookOk(env.lines, acts[..a], acts[a], i);
    b := acts[a].looks[i].act;
    assert acts[..a][b] == acts[b];
  }

  predicate UsesOrIgnores(f: Act, i: nat, b: nat) {
    f.Block? && i < |f.looks| && f.looks[i].Saw? && f.looks[i].act == b
  }

  lemma FairAt(env: Env, acts: seq<Act>, ties: seq<Tie>, log: seq<Event>, a: nat)
    requires Sound(env, acts, ties, log) && a < |acts|
    ensures Fair(env.options, env.lines, acts[..a], acts[a])
  {
    RecordIs(env, acts, ties, log, a);
  }

  /** Nothing is ignored. */
  lemma Taken(env: Env, acts: seq<Act>, ties: seq<Tie>, log: seq<Event>, a: nat, i: nat, b: nat)
    requires Sound(env, acts, ties, log) && a < |acts| && env.lines == STALE && UsesOrIgnores(acts[a], i, b)
    ensures Uses(acts, a, b)
  {
    assert SeesAt(acts[a], i, b);
    UsesUnlessIgnored(env, acts, ties, log, a, i, b);
    hide Sound;
    assert UsesAt(acts[a], i, b);
  }

  /** The block of the source: its time is that of its file. */
  lemma Source(env: Env, acts: seq<Act>, ties: seq<Tie>, log: seq<Event>, c: nat, lib: nat, src: nat, prog: nat)
    requires Sound(env, acts, ties, log) && StaleEnv(env, lib, src, prog)
    requires c < |acts| && acts[c].Block? && acts[c].rule == "src.c" && acts[c].at == 2
    ensures |ties| == |acts| && ties[c].start <= |log| && FileOf(env, log, acts[c], ties[c]) == src
  {
    SourceRead(env, acts, ties, log, c);
    TimesAreOfFiles(env, acts, ties, log, c);
  }

  lemma SourceRead(env: Env, acts: seq<Act>, ties: seq<Tie>, log: seq<Event>, c: nat)
    requires Sound(env, acts, ties, log) && env.lines == STALE && c < |acts| && acts[c].Block? && acts[c].at == 2
    ensures acts[c].stop == 3 && acts[c].outcome.Idle?
  {
    FairAt(env, acts, ties, log, c);
    hide Sound;
    FirstLine(env, acts[..c], acts[c]);
    LastLine(env, acts[..c], acts[c], 0);
    assert acts[c].track == [2] && [2][..0] == [];
    assert Texts(env.lines, [2]) == [];
  }

  /** A block that starts behind the first make line ends with the first library at the latest. */
  lemma LibraryStop(env: Env, acts: seq<Act>, ties: seq<Tie>, log: seq<Event>, b: nat)
    requires Sound(env, acts, ties, log) && env.lines == STALE && b < |acts| && acts[b].Block? && acts[b].at == 1
    ensures acts[b].stop <= 5 && !acts[b].outcome.Unfinished? && |acts[b].track| == |acts[b].looks| > 0
    ensures acts[b].track[0] == 1 && ("src.c" !in acts[b].making ==> acts[b].stop == 5)
  {
    FairAt(env, acts, ties, log, b);
    var f, before := acts[b], acts[..b];
    FirstLine(env, before, f);
    if "src.c" in f.making {
      assert LookOk(env.lines, before, f, 0);
      hide Sound, Fair;
      NextLine(env, before, f, 0);
      LastLine(env, before, f, 1);
    } else {
      var c := ToBlock(env, acts, ties, log, b, 0, "src.c");
      SourceRead(env, acts, ties, log, c);
      hide Sound, Fair;
      NextLine(env, before, f, 0);
      NextLine(env, before, f, 1);
      LastLine(env, before, f, 2);
    }
  }

  /** The lines of the block of the program, and the library file that its bind line bound. */
  lemma Program(env: Env, acts: seq<Act>, ties: seq<Tie>, log: seq<Event>, d: nat) returns (f: nat)
    requires Sound(env, acts, ties, log) && env.lines == STALE && d < |acts| && acts[d].Block? && acts[d].rule == "prog"
    requires acts[d].at == 6
    ensures f < d && acts[f].File? && acts[f].rule == "lib.a"
    ensures acts[d].track == [6, 7, 8] && |acts[d].looks| == 3 && acts[d].looks[0] == Libs(f, 1)
    ensures !acts[d].looks[1].Saw? && !acts[d].looks[1].Libs? && !acts[d].looks[2].Saw? && !acts[d].looks[2].Libs?
    ensures !acts[d].outcome.Unfinished?
  {
    FairAt(env, acts, ties, log, d);
    var g, before := acts[d], acts[..d];
    FirstLine(env, before, g);
    assert LookOk(env.lines, before, g, 0);
    f := g.looks[0].first;
    assert |"FEATURE/"| == 8 && |"configure.h"| == 11 && LibsOf("prog", env.lines[6]) == ["lib.a"];
    assert LibAt(before, g.looks[0].first + 0, ["lib.a"][0]);
    assert before[f] == acts[f];
    ProgramLines(env, before, g);
  }

  lemma ProgramLines(env: Env, before: seq<Act>, g: Act)
    requires Fair(env.options, env.lines, before, g) && g.Block? && env.lines == STALE
    requires |g.track| == |g.looks| > 0 && g.track[0] == 6
    ensures g.track == [6, 7, 8] && !g.outcome.Unfinished?
    ensures forall i :: 1 <= i < |g.looks| ==> g.looks[i] == Nothing
  {
    forall i | 0 <= i < |g.track| ensures LookOk(env.lines, before, g, i) {
    }
    hide Fair;
    NextLine(env, before, g, 0);
    NextLine(env, before, g, 1);
    LastLine(env, before, g, 2);
    assert LookOk(env.lines, before, g, 1) && LookOk(env.lines, before, g, 2);
  }

  // The times of the program.

  /** Over these events the time of a rule does not change. */
  predicate Leaves(e: Event, q: string) {
    e.rule != q || e.Attributed? || e.MarkedFailed? || e.Regenerated?
  }

  lemma {:induction false} NeverLower(env: Env, log: seq<Event>, q: string)
    requires NoneLower(env)
    ensures !Lower(env, log, q)
  {
    if log != [] {
      NeverLower(env, log[..|log| - 1], q);
    }
  }

  lemma {:induction false} TimeStays(env: Env, log: seq<Event>, q: string, n: nat, m: nat)
    requires NoneLower(env) && n <= m <= |log| && forall k :: n <= k < m ==> Leaves(log[k], q)
    ensures TimeAfter(env, log[..m], q) == TimeAfter(env, log[..n], q)
  {
    if n < m {
      TimeStays(env, log, q, n, m - 1);
      assert log[..m][..m - 1] == log[..m - 1] && log[..m][m - 1] == log[m - 1];
      NeverLower(env, log[..m - 1], q);
    }
  }

  /** The lines of the program's block in the log. */
  lemma ProgramLog(env: Env, acts: seq<Act>, ties: seq<Tie>, log: seq<Event>, g: Act, t: Tie, f: nat)
    requires g.Block? && g.rule == "prog" && env.lines == STALE && Tied(env, acts, ties, log, g, t)
    requires g.track == [6, 7, 8] && |g.looks| == 3 && g.looks[0] == Libs(f, 1) && f < |acts| == |ties|
    requires acts[f].File? && acts[f].rule == "lib.a" && ties[f].finish == ties[f].start + 2
    ensures |t.whens| == 3 && ties[f].start == t.start + 1 == Clock(g, t, 0) <= t.whens[2] <= |log|
    ensures ties[f].start < |log| && log[ties[f].start] == Attributed("lib.a", 6)
    ensures forall k :: t.start + 1 <= k < t.whens[2] ==> Leaves(log[k], "prog")
  {
    hide HasFlag, TimeAfter, DoneTied, HadFailed, SawFailed;
    assert Step(env, acts, ties, log, g, t, 0) && Step(env, acts, ties, log, g, t, 1)
      && Step(env, acts, ties, log, g, t, 2);
    assert LibTied(acts, ties, log, "prog", 6, Clock(g, t, 0), f, 0);
  }

  /** The program has the time of its file when it is decided on. */
  lemma ProgramTime(env: Env, acts: seq<Act>, ties: seq<Tie>, log: seq<Event>, g: Act, t: Tie, f: nat)
    requires g.Block? && g.rule == "prog" && env.lines == STALE && Tied(env, acts, ties, log, g, t) && NoneLower(env)
    requires g.track == [6, 7, 8] && |g.looks| == 3 && g.looks[0] == Libs(f, 1) && f < |acts| == |ties|
    requires acts[f].File? && acts[f].rule == "lib.a" && ties[f].finish == ties[f].start + 2 && !g.outcome.Unfinished?
    ensures g.before == g.own
  {
    ProgramLog(env, acts, ties, log, g, t, f);
    TimeStays(env, log, "prog", t.start + 1, t.whens[2]);
    hide HasFlag, TimeAfter, Steps, HadFailed, SawFailed, ActionTied, IsExcused;
  }

  /** The library file that the program's block bound has the time that find reports then. */
  lemma LibraryTime(env: Env, acts: seq<Act>, ties: seq<Tie>, log: seq<Event>, d: nat, f: nat, lib: nat, src: nat,
                    prog: nat)
    requires Sound(env, acts, ties, log) && StaleEnv(env, lib, src, prog) && f < d < |acts| == |ties|
    requires acts[f].File? && acts[f].rule == "lib.a"
    requires ties[f].start < |log| && log[ties[f].start] == Attributed("lib.a", 6)
    ensures acts[f].ends == lib
  {
    TimesAreOfFiles(env, acts, ties, log, f);
    hide Sound, TimeAfter, NoneLower;
  }

  /** The program is skipped as up to date. */
  lemma ProgramFresh(env: Env, acts: seq<Act>, ties: seq<Tie>, log: seq<Event>, d: nat, lib: nat, src: nat, prog: nat)
    returns (f: nat)
    requires Sound(env, acts, ties, log) && StaleEnv(env, lib, src, prog)
    requires d < |acts| && acts[d].Block? && acts[d].rule == "prog" && acts[d].at == 6
    ensures f < d && acts[f].File? && acts[f].rule == "lib.a" && Uses(acts, d, f)
    ensures acts[d].outcome.Fresh? && acts[d].before == prog && |ties| == |acts|
    ensures ties[f].start == ties[d].start + 1 && ties[f].finish == ties[f].start + 2
  {
    f := Program(env, acts, ties, log, d);
    RecordIs(env, acts, ties, log, d);
    RecordIs(env, acts, ties, log, f);
    var g, t, log1 := acts[d], ties[d], log[..ties[d].finish];
    assert acts[..d][f] == acts[f] && ties[..d][f] == ties[f];
    FileSpan(env, acts[..f], ties[..f], log[..ties[f].finish], acts[f], ties[f]);
    ProgramLog(env, acts[..d], ties[..d], log1, g, t, f);
    ProgramTime(env, acts[..d], ties[..d], log1, g, t, f);
    assert log1[ties[f].start] == log[ties[f].start];
    LibraryTime(env, acts, ties, log, d, f, lib, src, prog);
    TimesAreOfFiles(env, acts, ties, log, d);
    ActiveAsNamed(env, acts[..d], ties[..d], log1, g, t);
    assert g.own == prog;
    assert Highest(acts[..d], g) && Decided(env.options, g) && g.cmd == Texts(env.lines, g.track);
    hide Sound, Fair, Tied, FileOf, FoundOf, NoneLower, Highest;
    ProgramTexts();
    ProgramHigh(acts[..d], g, f, prog);
    assert SeesAt(g, 0, f) && UsesAt(g, 0, f);
  }

  lemma FileSpan(env: Env, acts: seq<Act>, ties: seq<Tie>, log: seq<Event>, a: Act, t: Tie)
    requires a.File? && Tied(env, acts, ties, log, a, t)
    ensures t.finish == t.start + 2
  {
    hide HasFlag, TimeAfter;
  }

  lemma ProgramTexts()
    ensures Texts(STALE, [6, 7, 8]) == ["cc"]
  {
    var u: seq<nat> := [6, 7, 8];
    var v: seq<nat> := [6, 7];
    assert u[..2] == v && v[..1] == [6] && [6][..0] == [];
    assert Texts(STALE, []) == [] && Texts(STALE, [6]) == [] && Texts(STALE, v) == ["cc"];
  }

  lemma ProgramHigh(acts: seq<Act>, g: Act, f: nat, prog: nat)
    requires g.Block? && Highest(acts, g) && |g.looks| == 3 && g.looks[0] == Libs(f, 1) && f < |acts|
    requires !g.looks[1].Saw? && !g.looks[1].Libs? && !g.looks[2].Saw? && !g.looks[2].Libs?
    requires g.own == prog && acts[f].ends <= prog
    ensures g.high == prog
  {
    forall i: nat, b: nat | UsesAt(g, i, b) ensures b == f {
    }
  }

  /** The block of the library is the one that last made its file. */
  lemma LibraryMade(env: Env, acts: seq<Act>, ties: seq<Tie>, log: seq<Event>, pos: nat, b: nat, f: nat)
    requires Sound(env, acts, ties, log) && Grown(env.lines, acts, pos) && env.lines == STALE && |ties| == |acts|
    requires b < |acts| && f < |acts| && acts[b].Block? && acts[f].File? && acts[b].rule == acts[f].rule == "lib.a"
    requires acts[b].stop == 5 && ties[b].finish < ties[f].finish
    ensures MadeFrom(acts, f, b)
  {
    assert InOrder(ties);
    forall j | b < j < f && acts[j].rule == "lib.a" ensures acts[j].File? {
      if acts[j].Block? {
        assert StartsAt(env.lines, "lib.a", acts[j].at);
        LibraryStop(env, acts, ties, log, j);
      }
    }
  }

  /** In every such run the program is skipped as up to date, though it depends, through the library, on a
      source the file of which is newer. */
  lemma SkippedThoughStale(env: Env, acts: seq<Act>, ties: seq<Tie>, log: seq<Event>, pos: nat, lib: nat, src: nat,
                           prog: nat)
    returns (d: nat, f: nat, b: nat, c: nat)
    requires Sound(env, acts, ties, log) && Whole(acts, ties, log) && Outermost(acts[|acts| - 1])
    requires Grown(env.lines, acts, pos) && StaleEnv(env, lib, src, prog)
    ensures d < |acts| && acts[d].Block? && acts[d].rule == "prog" && acts[d].outcome.Fresh? && acts[d].before == prog
    ensures Uses(acts, d, f) && MadeFrom(acts, f, b) && Uses(acts, b, c)
    ensures c < |acts| == |ties| && acts[c].rule == "src.c" && ties[c].start <= |log|
    ensures FileOf(env, log, acts[c], ties[c]) == src > prog
    ensures !DeepNewestFiles(env, acts, ties, log, d, prog)
  {
    hide Sound, Grown, Fair, Tied, Uses, MadeFrom, FileOf, DeepNewestFiles, DeepFrom, FilesNoNewer, NoneLower, After;
    var r: nat := |acts| - 1;
    FairAt(env, acts, ties, log, r);
    FirstLine(env, acts[..r], acts[r]);
    b := ToBlock(env, acts, ties, log, r, 0, "lib.a");
    LibraryStop(env, acts, ties, log, b);
    c := ToBlock(env, acts, ties, log, b, 0, "src.c");
    Source(env, acts, ties, log, c, lib, src, prog);
    NextLine(env, acts[..r], acts[r], 0);
    d := ToBlock(env, acts, ties, log, r, 1, "prog");
    f := ProgramFresh(env, acts, ties, log, d, lib, src, prog);
    Taken(env, acts, ties, log, b, 0, c);
    LibraryFirst(env, acts, ties, log, r, b, d);
    LibraryMade(env, acts, ties, log, pos, b, f);
    Behind4(acts, d, f, b, c);
    NotNewest(env, acts, ties, log, d, [d, f, b, c], prog);
  }

  lemma NotNewest(env: Env, acts: seq<Act>, ties: seq<Tie>, log: seq<Event>, d: nat, p: seq<nat>, time: nat)
    requires |ties| == |acts| && DeepFrom(acts, d, p)
    requires var c := p[|p| - 1]; ties[c].start <= |log| && FileOf(env, log, acts[c], ties[c]) > time
    ensures !DeepNewestFiles(env, acts, ties, log, d, time)
  {
    assert !FilesNoNewer(env, log, acts[p[|p| - 1]], ties[p[|p| - 1]], time);
  }

  /** The block of the library ends before that of the program starts. */
  lemma LibraryFirst(env: Env, acts: seq<Act>, ties: seq<Tie>, log: seq<Event>, r: nat, b: nat, d: nat)
    requires Sound(env, acts, ties, log) && env.lines == STALE && r < |acts| == |ties| && b < r && d < r
      && acts[r].Block?
    requires |acts[r].track| == |acts[r].looks| > 1 && acts[r].track[0] == 0 && acts[r].track[1] == 5
    requires UsesOrIgnores(acts[r], 0, b) && UsesOrIgnores(acts[r], 1, d)
    ensures ties[b].finish < ties[d].start
  {
    RecordIs(env, acts, ties, log, r);
    LinesApart(env, acts[..r], ties[..r], log[..ties[r].finish], acts[r], ties[r]);
    assert ties[..r][b] == ties[b] && ties[..r][d] == ties[d];
  }

  lemma LinesApart(env: Env, acts: seq<Act>, ties: seq<Tie>, log: seq<Event>, g: Act, t: Tie)
    requires g.Block? && env.lines == STALE && Tied(env, acts, ties, log, g, t) && |ties| == |acts|
    requires |g.track| > 1 && g.track[0] == 0 && g.track[1] == 5 && g.looks[0].Saw? && g.looks[1].Saw?
    ensures g.looks[0].act < |ties| && g.looks[1].act < |ties|
    ensures ties[g.looks[0].act].finish < ties[g.looks[1].act].start
  {
    hide HasFlag, TimeAfter, DoneTied, HadFailed, SawFailed;
    assert Step(env, acts, ties, log, g, t, 0) && Step(env, acts, ties, log, g, t, 1);
  }

  lemma Behind4(acts: seq<Act>, d: nat, f: nat, b: nat, c: nat)
    requires d < |acts| && c < |acts| && Uses(acts, d, f) && MadeFrom(acts, f, b) && Uses(acts, b, c)
    ensures DeepFrom(acts, d, [d, f, b, c]) && [d, f, b, c][3] == c
  {
    var p := [d, f, b, c];
    assert DeepStep(acts, p[0], p[1]) && DeepStep(acts, p[1], p[2]) && DeepStep(acts, p[2], p[3]);
  }
}
