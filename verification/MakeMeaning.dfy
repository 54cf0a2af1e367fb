/**
 What the claims of MakeClaims come down to, in terms of the lines, of find, of the shell and of the options
 (src/cmd/INIT/mamake.c:1021-1036, 1180-1277, 1548-1717).
 */
module MakeMeaning {
  import opened MakeLog
  import opened MakeTrace
  import opened MakeClaims
  import opened Wrappers

  // Libraries.

  /** A bind line of a block binds all its libraries, in order, unless the block is for a feature test or for
      configure.h; then it binds none. */
  lemma BindsExactly(env: Env, acts: seq<Act>, ties: seq<Tie>, log: seq<Event>, a: nat, i: nat)
    requires Sound(env, acts, ties, log) && a < |acts| && acts[a].Block? && i < |acts[a].track|
    requires acts[a].track[i] < |env.lines| && env.lines[acts[a].track[i]].Bind?
    ensures i < |acts[a].looks| && acts[a].looks[i].Libs?
    ensures var look, libs := acts[a].looks[i], env.lines[acts[a].track[i]].libs;
      && look.many == (if "FEATURE/" <= acts[a].rule || acts[a].rule == "configure.h" then 0 else |libs|)
      && look.first + look.many <= a
      && forall j :: 0 <= j < look.many ==> LibAt(acts, look.first + j, libs[j])
  {
    RecordIs(env, acts, ties, log, a);
    hide Sound, Fair, Tied;
    BindLooks(env, acts[..a], acts[a], i);
  }

  lemma BindLooks(env: Env, acts: seq<Act>, f: Act, i: nat)
    requires Fair(env.options, env.lines, acts, f) && f.Block? && i < |f.track|
    requires f.track[i] < |env.lines| && env.lines[f.track[i]].Bind?
    ensures i < |f.looks| && f.looks[i].Libs?
    ensures var look, libs := f.looks[i], env.lines[f.track[i]].libs;
      && look.many == (if "FEATURE/" <= f.rule || f.rule == "configure.h" then 0 else |libs|)
      && look.first + look.many <= |acts|
      && forall j :: 0 <= j < look.many ==> LibAt(acts, look.first + j, libs[j])
  {
    hide Flows, Highest, Texts, Reads, Decided, Fails, OwnTime, LibAt;
    assert LookOk(env.lines, acts, f, i);
  }

  // Failures.

  /** What makes a block a culprit: an action that the shell ran ended with a code other than 0, and that is not
      ignored; or its target counts as missing. Recursive runs are run by the shell unless -N is given, and others
      unless -n or -N is. */
  lemma CulpritIff(env: Env, acts: seq<Act>, ties: seq<Tie>, log: seq<Event>, a: nat)
    requires Sound(env, acts, ties, log) && a < |acts| && acts[a].Block? && !acts[a].outcome.Unfinished?
    ensures acts[a].stop > 0 && (acts[a].outcome.Ran? ==> acts[a].cmd != [])
    ensures Culprit(env, acts[a]) <==>
      || !acts[a].excused
      || (acts[a].outcome.Ran? && env.shell(acts[a].stop - 1).code != 0 && !env.options.ignore
          && if "mamake -r " <= acts[a].cmd[0] then !env.options.never else env.options.exec)
  {
    RecordIs(env, acts, ties, log, a);
    StopsBehindDone(env, acts[..a], acts[a]);
    hide Partial, Tied, AllFair, AllTied;
    assert Decided(env.options, acts[a]);
  }

  lemma FailedBeforeIff(env: Env, acts: seq<Act>, ties: seq<Tie>, log: seq<Event>, a: nat)
    requires Sound(env, acts, ties, log) && a < |acts|
    ensures |ties| == |acts| && ties[a].start <= |log|
    ensures FailedBefore(env, acts, ties, log, a) <==> MarkedFailed(acts[a].rule) in log[..ties[a].start]
  {
    TimesAreOfFiles(env, acts, ties, log, a);
    var log1, q := log[..ties[a].start], acts[a].rule;
    if MarkedFailed(q) in log1 {
      var m :| 0 <= m < |log1| && log1[m] == MarkedFailed(q);
      assert Gives(env, log1[m], Error);
    }
    if HasFlag(env, log1, q, Error) {
      var m :| 0 <= m < |log1| && log1[m].rule == q && Gives(env, log1[m], Error);
      assert log1[m] == MarkedFailed(q);
    }
    hide Sound;
  }

  // Times.

  /** The times in a record: of the file when the rule was looked for, or else what the rule had; and, if its
      action was run, of the target behind it, if the shell ran the action and the target is there, or else the time
      of day. */
  lemma TimesAre(env: Env, acts: seq<Act>, ties: seq<Tie>, log: seq<Event>, a: nat)
    requires Sound(env, acts, ties, log) && a < |acts|
    ensures |ties| == |acts| && ties[a].start <= |log|
    ensures var f, was := acts[a], TimeAfter(env, log[..ties[a].start], acts[a].rule);
      match f
      case File(q, ends, _) =>
        && ties[a].start < |log| && log[ties[a].start].Attributed?
        && var found := env.find(log[ties[a].start].line + 1, q);
           ends == if found.Some? then found.value.time else was
      case Block(q, _, _, _, at, stop, _, _, own, _, cmd, _, outcome, _, _, _) =>
        && own == (if q != "" && env.find(at, q).Some? then env.find(at, q).value.time else was)
        && (outcome.Ran? ==>
              && stop > 0 && cmd != []
              && var shelled, then_ :=
                   (if "mamake -r " <= cmd[0] then !env.options.never else env.options.exec), env.shell(stop - 1);
                 outcome.time == if shelled && then_.time.Some? then then_.time.value else then_.now)
  {
    TimesAreOfFiles(env, acts, ties, log, a);
    RecordIs(env, acts, ties, log, a);
    var f := acts[a];
    hide Sound, Partial, DoneTied, Head, Steps, TimeAfter;
    if f.File? {
      assert log[..ties[a].finish][ties[a].start] == log[ties[a].start];
    } else if f.outcome.Ran? {
      assert Decided(env.options, f);
      StopsBehindDone(env, acts[..a], f);
    }
  }

  /** The file of a rule is one of a lower view, and not forgotten, exactly if it was found in one and the rule was
      not generated since. */
  lemma {:induction false} LowerIff(env: Env, log: seq<Event>, q: string)
    ensures Lower(env, log, q) <==> exists m: nat :: FoundLower(env, log, m, q)
  {
    hide Gives;
    if log != [] {
      var n := |log| - 1;
      var front, e := log[..n], log[n];
      LowerIff(env, front, q);
      if m: nat :| FoundLower(env, log, m, q) && m < n {
        assert FoundLower(env, front, m, q);
      }
      if m: nat :| FoundLower(env, front, m, q) && !(e.Regenerated? && e.rule == q) {
        assert FoundLower(env, log, m, q);
      }
      if e.LookedFor? && e.rule == q && Lower(env, log, q) && !Lower(env, front, q) {
        assert FoundLower(env, log, n, q);
      }
    }
  }

  /** Event m found the file of q in a lower view, and no exec line for q came behind it. */
  ghost predicate FoundLower(env: Env, log: seq<Event>, m: nat, q: string) {
    && m < |log| && log[m].LookedFor? && log[m].rule == q
    && env.find(log[m].pos, q).Some? && env.find(log[m].pos, q).value.lower
    && forall n :: m < n < |log| && log[n].rule == q ==> !log[n].Regenerated?
  }

  /** What each event makes of the time of its rule. */
  lemma TimeBehind(env: Env, log: seq<Event>, e: Event)
    ensures forall q :: q != e.rule ==> TimeAfter(env, log + [e], q) == TimeAfter(env, log, q)
    ensures var now, was := TimeAfter(env, log + [e], e.rule), TimeAfter(env, log, e.rule);
      match e
      case LookedFor(q, pos) => now == if env.find(pos, q).Some? then env.find(pos, q).value.time else was
      case Regenerated(q, _) => now == if exists m: nat :: FoundLower(env, log, m, q) then 0 else was
      case RanAction(_, pos, shelled) =>
        now == if shelled && env.shell(pos).time.Some? then env.shell(pos).time.value else env.shell(pos).now
      case Finished(_, time) => now == time
      case Attributed(_, _) => now == was
      case MarkedFailed(_) => now == was
    ensures TimeAfter(env, [], e.rule) == 0
  {
    var more := log + [e];
    assert more[..|more| - 1] == log && more[|more| - 1] == e;
    LowerIff(env, log, e.rule);
    hide FoundLower;
  }
}
