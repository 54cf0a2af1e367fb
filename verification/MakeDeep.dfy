/**
 What lies behind a bind line (src/cmd/INIT/mamake.c:1018-1036, 1601-1606). There a library has the time of
 its file, whatever time the block that made it ended with. So a target may be skipped as up to date though
 a file that a library of it was made from is newer; here is when.
 */
module MakeDeep {
  import opened MakeLog
  import opened MakeTrace
  import opened MakeClaims
  import opened MakeCauses
  import opened Wrappers

  /** Record b is the block that last made the library file a. */
  ghost predicate MadeFrom(acts: seq<Act>, a: nat, b: nat) {
    && b < a < |acts| && acts[a].File? && acts[b].Block? && acts[b].rule == acts[a].rule
    && forall j :: b < j < a && acts[j].rule == acts[a].rule ==> acts[j].File?
  }

  ghost predicate DeepStep(acts: seq<Act>, a: nat, b: nat) {
    Uses(acts, a, b) || MadeFrom(acts, a, b)
  }

  /** A path of dependencies that goes on behind library files. */
  ghost predicate DeepPath(acts: seq<Act>, p: seq<nat>) {
    |p| > 0 && p[0] < |acts| && forall i :: 0 < i < |p| ==> DeepStep(acts, p[i - 1], p[i])
  }

  ghost predicate DeepFrom(acts: seq<Act>, a: nat, p: seq<nat>) {
    DeepPath(acts, p) && |p| > 1 && p[0] == a && p[|p| - 1] < |acts|
  }

  /** No file that the target depends on is newer, also behind libraries. */
  ghost predicate DeepNewest(acts: seq<Act>, a: nat, time: nat) {
    forall p :: DeepFrom(acts, a, p) ==> NoNewer(acts[p[|p| - 1]], time)
  }

  /** The block that last made a library that the target depends on ended with a time no later. */
  ghost predicate LibrariesOld(acts: seq<Act>, a: nat, time: nat) {
    forall p, c: nat :: DeepFrom(acts, a, p) && MadeFrom(acts, p[|p| - 1], c) ==> acts[c].ends <= time
  }

  lemma DeepMore(acts: seq<Act>, p: seq<nat>, c: nat, q: seq<nat>)
    requires DeepPath(acts, p) && MadeFrom(acts, p[|p| - 1], c) && UsePath(acts, q) && q[0] == c
    ensures DeepPath(acts, p + q) && (p + q)[|p + q| - 1] == q[|q| - 1] && (p + q)[0] == p[0]
  {
    var r := p + q;
    forall i | 0 < i < |r| ensures DeepStep(acts, r[i - 1], r[i]) {
      if i < |p| {
        assert DeepStep(acts, p[i - 1], p[i]);
      } else if i > |p| {
        assert Uses(acts, q[i - |p| - 1], q[i - |p|]);
      }
    }
  }

  /** Times along a deep path, given those of the libraries. */
  lemma {:induction false} EndsBelow(o: Options, lines: seq<Line>, acts: seq<Act>, p: seq<nat>, time: nat)
    requires AllFair(o, lines, acts) && DeepPath(acts, p) && |p| > 1
    requires acts[p[0]].Block? && acts[p[0]].high <= time && LibrariesOld(acts, p[0], time)
    ensures p[|p| - 1] < |acts| && acts[p[|p| - 1]].ends <= time
    decreases |p|
  {
    hide Fair, AllFair;
    var n := |p| - 1;
    var q := p[..n];
    assert DeepStep(acts, p[n - 1], p[n]);
    if Uses(acts, p[n - 1], p[n]) {
      UsedTime(o, lines, acts, p[n - 1], p[n]);
    }
    if n > 1 {
      forall i | 0 < i < |q| ensures DeepStep(acts, q[i - 1], q[i]) {
        assert DeepStep(acts, p[i - 1], p[i]);
      }
      EndsBelow(o, lines, acts, q, time);
      assert DeepFrom(acts, p[0], q);
    }
  }

  /** A target that was skipped as up to date is no older than all files it depends on, also those behind
      libraries, exactly if the blocks that made those libraries ended with no later times. */
  lemma SkippedDeep(o: Options, lines: seq<Line>, acts: seq<Act>, a: nat)
    requires AllFair(o, lines, acts) && a < |acts| && acts[a].Block? && acts[a].outcome.Fresh?
    ensures DeepNewest(acts, a, acts[a].before) <==> LibrariesOld(acts, a, acts[a].before)
  {
    var u := acts[a].before;
    assert Fair(o, lines, acts[..a], acts[a]) && acts[a].high <= u;
    hide Fair, AllFair, NoNewer, HasTime;
    if LibrariesOld(acts, a, u) {
      forall p | DeepFrom(acts, a, p) ensures NoNewer(acts[p[|p| - 1]], u) {
        EndsBelow(o, lines, acts, p, u);
        NoNewerThanEnds(o, lines, acts, p[|p| - 1]);
        StillNoNewer(acts[p[|p| - 1]], acts[p[|p| - 1]].ends, u);
      }
    }
    if DeepNewest(acts, a, u) {
      forall p, c: nat | DeepFrom(acts, a, p) && MadeFrom(acts, p[|p| - 1], c) ensures acts[c].ends <= u {
        var q := EndsOnPath(o, lines, acts, c);
        DeepMore(acts, p, c, q);
        assert DeepFrom(acts, a, p + q);
        TimeBelow(acts[q[|q| - 1]], acts[c].ends, u);
      }
    }
  }

  lemma StillNoNewer(f: Act, time: nat, later: nat)
    requires NoNewer(f, time) && time <= later
    ensures NoNewer(f, later)
  {
  }

  lemma TimeBelow(f: Act, time: nat, u: nat)
    requires HasTime(f, time) && NoNewer(f, u)
    ensures time <= u
  {
  }

  /** The same over the times of the files. */
  ghost predicate DeepNewestFiles(env: Env, acts: seq<Act>, ties: seq<Tie>, log: seq<Event>, a: nat, time: nat)
    requires |ties| == |acts|
  {
    forall p :: DeepFrom(acts, a, p) ==> FilesNoNewer(env, log, acts[p[|p| - 1]], ties[p[|p| - 1]], time)
  }

  lemma SkippedDeepFiles(env: Env, acts: seq<Act>, ties: seq<Tie>, log: seq<Event>, a: nat)
    requires Sound(env, acts, ties, log) && a < |acts| && acts[a].Block? && acts[a].outcome.Fresh?
    ensures |ties| == |acts|
    ensures DeepNewestFiles(env, acts, ties, log, a, acts[a].before) <==> LibrariesOld(acts, a, acts[a].before)
  {
    SkippedDeep(env.options, env.lines, acts, a);
    RecordIs(env, acts, ties, log, a);
    hide Sound, FileOf, FoundOf, FileTime, Fair, Tied, LibrariesOld;
    forall p | DeepFrom(acts, a, p)
      ensures FilesNoNewer(env, log, acts[p[|p| - 1]], ties[p[|p| - 1]], acts[a].before)
              <==> NoNewer(acts[p[|p| - 1]], acts[a].before)
    {
      TimesAreOfFiles(env, acts, ties, log, p[|p| - 1]);
    }
  }
}
