/**
 What a run of mamake means for the files, the shell, the attributes and the targets: every record is
 fair and tied to the log, so what MakeTrace derives holds of the times that find and the shell report,
 and of the exit codes (src/cmd/INIT/mamake.c:1180-1280, 1548-1717).
 */
module MakeClaims {
  import opened MakeLog
  import opened MakeTrace
  import opened Wrappers

  /** The records and the log of a run, as Maker.Mamfile leaves them. */
  ghost predicate Sound(env: Env, acts: seq<Act>, ties: seq<Tie>, log: seq<Event>) {
    AllFair(env.options, env.lines, acts) && AllTied(env, acts, ties, log)
  }

  lemma RecordIs(env: Env, acts: seq<Act>, ties: seq<Tie>, log: seq<Event>, a: nat)
    requires Sound(env, acts, ties, log) && a < |acts|
    ensures |ties| == |acts| && ties[a].finish <= |log| && Fair(env.options, env.lines, acts[..a], acts[a])
    ensures Tied(env, acts[..a], ties[..a], log[..ties[a].finish], acts[a], ties[a])
  {
    hide Fair, Tied;
    assert TiedAt(env, acts, ties, log, a);
  }

  /** A block that was read to its done line ends right behind it. */
  lemma StopsBehindDone(env: Env, acts: seq<Act>, f: Act)
    requires Fair(env.options, env.lines, acts, f) && f.Block? && !f.outcome.Unfinished?
    ensures |f.track| > 0 && f.stop == f.track[|f.track| - 1] + 1 && f.stop <= |env.lines|
    ensures env.lines[f.stop - 1].Done?
  {
    hide LookOk, Highest, Texts, Decided, OwnTime, Fails;
    assert FlowAt(env.lines, acts, f, |f.track|);
  }

  /** The time of the file of a record that the shell reports after its action, or else find. */
  function Reported(env: Env, log: seq<Event>, a: Act, t: Tie): Option<nat> {
    match a
    case File(q, _, _) =>
      if t.start < |log| && log[t.start].Attributed? then TimeOf(env.find(log[t.start].line + 1, q)) else None
    case Block(_, _, _, _, _, _, _, _, _, _, _, _, _, _, _, _) =>
      if a.outcome.Ran? && a.stop > 0 && a.cmd != []
        then Some(ActionTime(env.shell(a.stop - 1), Executes(env.options, a.cmd)))
      else if a.rule == "" then None
      else TimeOf(env.find(a.at, a.rule))
  }

  function TimeOf(found: Option<Found>): Option<nat> {
    if found.Some? then Some(found.value.time) else None
  }

  /** The time of the file of a record: as reported, or what its rule had before if none is found. */
  function FileOf(env: Env, log: seq<Event>, a: Act, t: Tie): nat
    requires t.start <= |log|
  {
    match Reported(env, log, a, t)
    case Some(time) => time
    case None => TimeAfter(env, log[..t.start], a.rule)
  }

  /** The time of the file of a target at the start of its block. */
  function FoundOf(env: Env, log: seq<Event>, a: Act, t: Tie): nat
    requires a.Block? && t.start <= |log|
  {
    if a.rule != "" && env.find(a.at, a.rule).Some? then env.find(a.at, a.rule).value.time
    else TimeAfter(env, log[..t.start], a.rule)
  }

  /** The times in a record are those of the files. */
  lemma TimesAreOfFiles(env: Env, acts: seq<Act>, ties: seq<Tie>, log: seq<Event>, a: nat)
    requires Sound(env, acts, ties, log) && a < |acts|
    ensures |ties| == |acts| && ties[a].start <= |log| && FileTime(acts[a]) == FileOf(env, log, acts[a], ties[a])
    ensures acts[a].Block? ==> acts[a].own == FoundOf(env, log, acts[a], ties[a])
  {
    RecordIs(env, acts, ties, log, a);
    var f, t := acts[a], ties[a];
    var log1 := log[..t.finish];
    if f.File? {
      FileReported(env, acts[..a], ties[..a], log1, f, t);
    } else {
      BlockReported(env, acts[..a], ties[..a], log1, f, t);
    }
    assert log1[..t.start] == log[..t.start] && (t.start < |log1| ==> log1[t.start] == log[t.start]);
  }

  lemma FileReported(env: Env, acts: seq<Act>, ties: seq<Tie>, log: seq<Event>, f: Act, t: Tie)
    requires f.File? && Tied(env, acts, ties, log, f, t)
    ensures t.start < |log| && log[t.start].Attributed?
    ensures f.ends == FileOf(env, log, f, t)
  {
    var log0 := log[..t.start];
    assert log[..|log| - 1] == log0 + [log[t.start]] && (log0 + [log[t.start]])[..|log0|] == log0;
    assert TimeAfter(env, log[..|log| - 1], f.rule) == TimeAfter(env, log0, f.rule);
    hide HasFlag;
  }

  lemma OwnIsFound(env: Env, log: seq<Event>, f: Act, t: Tie)
    requires f.Block? && t.start <= |log| && Head(env, log, f, t)
    ensures f.own == FoundOf(env, log, f, t)
  {
    var log0 := log[..t.start];
    if f.rule != "" {
      assert log[..t.start + 1] == log0 + [log[t.start]] && (log0 + [log[t.start]])[..|log0|] == log0;
    }
  }

  lemma ActionReported(env: Env, log: seq<Event>, f: Act, t: Tie, k: nat, decided: nat)
    requires f.Block? && f.outcome.Ran? && f.stop == k + 1 && DoneTied(env, log, f, t, k, decided)
    ensures Reported(env, log, f, t) == Some(f.outcome.time)
  {
    hide HasFlag, TimeAfter, IsExcused, Executes, ActionTime;
  }

  lemma BlockReported(env: Env, acts: seq<Act>, ties: seq<Tie>, log: seq<Event>, f: Act, t: Tie)
    requires f.Block? && Tied(env, acts, ties, log, f, t) && Fair(env.options, env.lines, acts, f)
    ensures t.start <= |log| && FileTime(f) == FileOf(env, log, f, t) && f.own == FoundOf(env, log, f, t)
  {
    hide Fair, Steps, Head, DoneTied, HasFlag, HadFailed, SawFailed, Executes;
    OwnIsFound(env, log, f, t);
    if f.outcome.Ran? {
      StopsBehindDone(env, acts, f);
      ActionReported(env, log, f, t, f.track[|f.track| - 1], Clock(f, t, |t.whens|));
    }
  }

  // When actions are run.

  /** The record is of a library file bound to the name q, with this time. */
  predicate Relabels(f: Act, q: string, time: nat) {
    f.File? && f.rule == q && f.ends == time
  }

  /** The target of block a has this time: of its file when the block started, or of a library file that a
      bind line inside it bound to its name. */
  ghost predicate TargetTime(acts: seq<Act>, a: nat, time: nat)
    requires a < |acts| && acts[a].Block?
  {
    || time == acts[a].own
    || exists j: nat :: j < a && acts[a].from <= j && Relabels(acts[j], acts[a].rule, time)
  }

  /** A block's action is in the run: all is active or a target on the command line is being made. */
  ghost predicate Wanted(env: Env, f: Act) {
    f.Block? && (env.targets == {} || f.making * env.targets != {}) && Texts(env.lines, f.track) != []
  }

  /** No file on this record, at its start or its end, is newer. */
  ghost predicate FilesNoNewer(env: Env, log: seq<Event>, f: Act, t: Tie, time: nat) {
    && t.start <= |log| && FileOf(env, log, f, t) <= time
    && (f.Block? ==> FoundOf(env, log, f, t) <= time && (f.outcome.Barred? ==> f.before <= time))
  }

  /** The target of block a has that time, it is there, its file was not newer at the start, and nor are the
      files of all that it depends on, directly or through others, by edges that are not ignored. */
  ghost predicate IsNewest(env: Env, acts: seq<Act>, ties: seq<Tie>, log: seq<Event>, a: nat, time: nat)
    requires a < |acts| == |ties| && acts[a].Block? && ties[a].start <= |log|
  {
    && 0 < time && TargetTime(acts, a, time) && FoundOf(env, log, acts[a], ties[a]) <= time
    && forall p :: UsePath(acts, p) && |p| > 1 && p[0] == a && p[|p| - 1] < |acts| ==>
         FilesNoNewer(env, log, acts[p[|p| - 1]], ties[p[|p| - 1]], time)
  }

  lemma NewestIs(env: Env, acts: seq<Act>, ties: seq<Tie>, log: seq<Event>, a: nat)
    requires Sound(env, acts, ties, log) && a < |acts| && acts[a].Block?
    ensures |ties| == |acts| && ties[a].start <= |log|
    ensures IsNewest(env, acts, ties, log, a, acts[a].before) <==>
      0 < acts[a].before && acts[a].own <= acts[a].before && NewestOfAll(acts, a, acts[a].before)
  {
    hide Sound, FileOf, FoundOf, FileTime;
    var u := acts[a].before;
    TimesAreOfFiles(env, acts, ties, log, a);
    if u > 0 {
      BeforeIsTargetTime(env, acts, ties, log, a);
    }
    forall p | UsePath(acts, p) && |p| > 1 && p[0] == a && p[|p| - 1] < |acts|
      ensures ties[p[|p| - 1]].start <= |log|
      ensures FilesNoNewer(env, log, acts[p[|p| - 1]], ties[p[|p| - 1]], u) <==> NoNewer(acts[p[|p| - 1]], u)
    {
      TimesAreOfFiles(env, acts, ties, log, p[|p| - 1]);
    }
  }

  /** The action of a target, if it is in the run, is skipped exactly if nothing is forced and the target is
      newest. */
  lemma SkippedExactlyIfNewest(env: Env, acts: seq<Act>, ties: seq<Tie>, log: seq<Event>, a: nat)
    requires Sound(env, acts, ties, log) && a < |acts| && acts[a].Block? && !acts[a].outcome.Unfinished?
    requires Wanted(env, acts[a])
    ensures |ties| == |acts| && ties[a].start <= |log|
    ensures acts[a].outcome.Fresh? <==> !env.options.force && IsNewest(env, acts, ties, log, a, acts[a].before)
    ensures !acts[a].outcome.Idle?
  {
    hide Tied, IsNewest, NewestOfAll, Fair;
    NewestIs(env, acts, ties, log, a);
    RecordIs(env, acts, ties, log, a);
    ActiveAsNamed(env, acts[..a], ties[..a], log[..ties[a].finish], acts[a], ties[a]);
    MakeTrace.SkippedExactlyIfNewest(env.options, env.lines, acts, a);
    DueExactlyIf(env.options, env.lines, acts, a);
  }

  lemma BeforeIsTargetTime(env: Env, acts: seq<Act>, ties: seq<Tie>, log: seq<Event>, a: nat)
    requires Sound(env, acts, ties, log) && a < |acts| && acts[a].Block? && acts[a].before > 0
    ensures TargetTime(acts, a, acts[a].before)
  {
    var f := acts[a];
    assert Fair(env.options, env.lines, acts[..a], f);
    hide Partial, Reads, Decided, Fails, AllFair, AllTied;
    if f.before != f.own {
      var j: nat :| f.from <= j < a && acts[..a][j].File? && acts[..a][j].rule == f.rule
        && acts[..a][j].ends == f.before;
      assert acts[j] == acts[..a][j];
    }
  }

  /** The block looked at a record that had failed. */
  ghost predicate SawFailure(acts: seq<Act>, a: nat) {
    exists b: nat :: Sees(acts, a, b) && b < |acts| && acts[b].failed
  }

  /** The target had failed before its block. */
  ghost predicate FailedBefore(env: Env, acts: seq<Act>, ties: seq<Tie>, log: seq<Event>, a: nat) {
    a < |acts| == |ties| && HadFailed(env, log, acts[a], ties[a])
  }

  /** The action of the block went wrong and that is not ignored, or the target was not there then and not
      excused. */
  ghost predicate Culprit(env: Env, f: Act) {
    f.Block? && !f.outcome.Unfinished? && ((f.stop > 0 && WentWrong(env, f, f.stop - 1)) || !f.excused)
  }

  /** A block fails exactly if its target had failed before, or it looked at a record that had failed, or it
      went wrong itself. */
  lemma FailsExactlyIf(env: Env, acts: seq<Act>, ties: seq<Tie>, log: seq<Event>, a: nat)
    requires Sound(env, acts, ties, log) && a < |acts| && acts[a].Block?
    ensures acts[a].failed <==> FailedBefore(env, acts, ties, log, a) || SawFailure(acts, a) || Culprit(env, acts[a])
    ensures acts[a].outcome.Ran? ==> !FailedBefore(env, acts, ties, log, a) && !SawFailure(acts, a)
    ensures acts[a].outcome.Barred? ==> FailedBefore(env, acts, ties, log, a) || SawFailure(acts, a)
  {
    hide Sound, Tied, Fair;
    RecordIs(env, acts, ties, log, a);
    SawFailureIs(env, acts, ties, log, a);
    var f, t := acts[a], ties[a];
    BlockFails(env, acts[..a], ties[..a], log[..t.finish], f, t);
    hide HasFlag, SawFailed, SawFailure;
    assert log[..t.finish][..t.start] == log[..t.start];
  }

  lemma BlockFails(env: Env, acts: seq<Act>, ties: seq<Tie>, log: seq<Event>, f: Act, t: Tie)
    requires f.Block? && Tied(env, acts, ties, log, f, t) && Fair(env.options, env.lines, acts, f)
    ensures t.start <= |log| == t.finish
    ensures f.failed <==> HadFailed(env, log, f, t) || SawFailed(acts, f) || Culprit(env, f)
    ensures f.outcome.Ran? ==> !HadFailed(env, log, f, t) && !SawFailed(acts, f)
    ensures f.outcome.Barred? ==> HadFailed(env, log, f, t) || SawFailed(acts, f)
  {
    if !f.outcome.Unfinished? {
      StopsBehindDone(env, acts, f);
    }
    hide Fair, Head, Steps, HadFailed, SawFailed, DoneTied, Executes;
  }

  lemma SawFailureIs(env: Env, acts: seq<Act>, ties: seq<Tie>, log: seq<Event>, a: nat)
    requires Sound(env, acts, ties, log) && a < |acts|
    ensures SawFailure(acts, a) <==> SawFailed(acts[..a], acts[a])
  {
    hide AllTied;
    if SawFailure(acts, a) {
      var b: nat :| Sees(acts, a, b) && b < |acts| && acts[b].failed;
      SeenEarlier(env.options, env.lines, acts, a, b);
      var i: nat :| SeesAt(acts[a], i, b);
      assert acts[..a][b].failed;
    }
    if SawFailed(acts[..a], acts[a]) {
      var i: nat, b: nat :| SeesAt(acts[a], i, b) && b < a && acts[..a][b].failed;
      assert Sees(acts, a, b);
    }
  }

  /** The action of a block that was read to its done line is run exactly if it is in the run, it is forced or
      the target is not newest, and nothing it depends on had failed. */
  lemma RunExactlyIf(env: Env, acts: seq<Act>, ties: seq<Tie>, log: seq<Event>, a: nat)
    requires Sound(env, acts, ties, log) && a < |acts| && acts[a].Block? && !acts[a].outcome.Unfinished?
    ensures |ties| == |acts| && ties[a].start <= |log|
    ensures acts[a].outcome.Ran? <==>
      && Wanted(env, acts[a]) && (env.options.force || !IsNewest(env, acts, ties, log, a, acts[a].before))
      && !FailedBefore(env, acts, ties, log, a) && !SawFailure(acts, a)
  {
    FailsExactlyIf(env, acts, ties, log, a);
    RecordIs(env, acts, ties, log, a);
    var f := acts[a];
    if Wanted(env, f) {
      SkippedExactlyIfNewest(env, acts, ties, log, a);
    } else {
      ActiveAsNamed(env, acts[..a], ties[..a], log[..ties[a].finish], f, ties[a]);
      assert f.cmd == [] && Decided(env.options, f);
    }
    hide SawFailure, FailedBefore, AllFair, AllTied, Tied, Fair, Due, IsNewest, Texts;
    TimesAreOfFiles(env, acts, ties, log, a);
  }

  lemma ActiveAsNamed(env: Env, acts: seq<Act>, ties: seq<Tie>, log: seq<Event>, f: Act, t: Tie)
    requires f.Block? && Tied(env, acts, ties, log, f, t)
    ensures f.active <==> env.targets == {} || f.making * env.targets != {}
  {
    hide Steps, DoneTied, HasFlag, TimeAfter;
  }

  // What is excused.

  /** The attributes that excuse a target that is not there. */
  predicate Excusing(attrs: set<Flag>) {
    DontCare in attrs || Generated in attrs || Implicit in attrs || Virtual in attrs
  }

  /** The attributes on a line. */
  predicate LineExcuses(l: Line) {
    match l
    case Make(_, attrs) => Excusing(attrs)
    case Done(_, attrs) => Excusing(attrs)
    case Bind(_, attrs) => Excusing(attrs)
    case _ => false
  }

  /** Event m excuses q if it is not there: its file was found, its action left it there or was not run by the
      shell, it was generated, or a line that says so was applied to it. */
  predicate ExcusesAt(env: Env, log: seq<Event>, m: nat, q: string) {
    && m < |log| && log[m].rule == q
    && match log[m]
       case LookedFor(_, pos) => env.find(pos, q).Some?
       case RanAction(_, pos, shelled) => !shelled || env.shell(pos).time.Some?
       case Regenerated(_, _) => true
       case Attributed(_, k) => k < |env.lines| && LineExcuses(env.lines[k])
       case _ => false
  }

  /** Something excused q before n in the log. */
  ghost predicate ExcusedBy(env: Env, log: seq<Event>, n: nat, q: string) {
    exists m: nat :: m < n <= |log| && ExcusesAt(env, log, m, q)
  }

  lemma GivesExcuse(env: Env, e: Event)
    ensures ExcusesAt(env, [e], 0, e.rule) <==>
      || Gives(env, e, DontCare) || Gives(env, e, Exists) || Gives(env, e, Generated) || Gives(env, e, Implicit)
      || Gives(env, e, Virtual)
  {
  }

  lemma ExcusedIs(env: Env, log: seq<Event>, q: string)
    ensures IsExcused(env, log, q) <==> ExcusedBy(env, log, |log|, q)
  {
    forall m: nat | m < |log| && log[m].rule == q
      ensures ExcusesAt(env, log, m, q) <==>
        || Gives(env, log[m], DontCare) || Gives(env, log[m], Exists) || Gives(env, log[m], Generated)
        || Gives(env, log[m], Implicit) || Gives(env, log[m], Virtual)
    {
      GivesExcuse(env, log[m]);
      assert ExcusesAt(env, log, m, q) <==> ExcusesAt(env, [log[m]], 0, q);
    }
    hide Gives;
    if m: nat :| m < |log| && ExcusesAt(env, log, m, q) {
    }
  }

  /** What a block does to the log behind its judgement excuses nothing. */
  lemma ExcusedByEnd(env: Env, log: seq<Event>, f: Act, t: Tie, k: nat, decided: nat)
    requires f.Block? && DoneTied(env, log, f, t, k, decided) && t.finish == |log|
    ensures f.excused <==> ExcusedBy(env, log, |log|, f.rule)
  {
    hide HasFlag, TimeAfter, ActionTied, IsExcused, Gives;
    var e := ActionEnd(env, f, k, decided);
    ExcusedIs(env, log[..e], f.rule);
    assert forall m: nat :: m < e ==> (ExcusesAt(env, log, m, f.rule) <==> ExcusesAt(env, log[..e], m, f.rule));
  }

  /** A target that is not made counts as there exactly if something so far in the run excused it. */
  lemma ExcusedExactlyIf(env: Env, acts: seq<Act>, ties: seq<Tie>, log: seq<Event>, a: nat)
    requires Sound(env, acts, ties, log) && a < |acts| && acts[a].Block? && !acts[a].outcome.Unfinished?
    ensures |ties| == |acts| && (acts[a].excused <==> ExcusedBy(env, log, ties[a].finish, acts[a].rule))
  {
    RecordIs(env, acts, ties, log, a);
    var f, t := acts[a], ties[a];
    var log1 := log[..t.finish];
    hide Fair, Steps, Head, DoneTied, HadFailed, SawFailed, LineExcuses;
    ExcusedByEnd(env, log1, f, t, f.track[|f.track| - 1], Clock(f, t, |t.whens|));
    assert forall m: nat :: m < t.finish ==> (ExcusesAt(env, log, m, f.rule) <==> ExcusesAt(env, log1, m, f.rule));
  }

  // What is ignored.

  /** A line applied before n in the log gave q the attribute. */
  ghost predicate ToldToIgnore(env: Env, log: seq<Event>, n: nat, q: string) {
    exists m: nat :: m < n <= |log| && IgnoresAt(env, log, m, q)
  }

  predicate IgnoresAt(env: Env, log: seq<Event>, m: nat, q: string) {
    && m < |log| && log[m].Attributed? && log[m].rule == q && log[m].line < |env.lines|
    && Ignore in AttrsOf(env.lines[log[m].line])
  }

  lemma IgnoreIs(env: Env, log: seq<Event>, n: nat, q: string)
    requires n <= |log|
    ensures HasFlag(env, log[..n], q, Ignore) <==> ToldToIgnore(env, log, n, q)
  {
    if m: nat :| m < n <= |log| && IgnoresAt(env, log, m, q) {
      assert log[..n][m] == log[m] && Gives(env, log[..n][m], Ignore);
    }
    if HasFlag(env, log[..n], q, Ignore) {
      var m: nat :| m < n && log[..n][m].rule == q && Gives(env, log[..n][m], Ignore);
      assert IgnoresAt(env, log, m, q);
    }
  }

  /** Where the log was when line i of a block decided whether to ignore what it looked at: after the block
      of a make line, before a prev line. */
  function DecidedAt(env: Env, ties: seq<Tie>, f: Act, t: Tie, i: nat): nat
    requires f.Block? && i < |f.track| == |f.looks| == |t.whens| && f.looks[i].Saw? && f.looks[i].act < |ties|
  {
    if f.track[i] < |env.lines| && env.lines[f.track[i]].Make? then ties[f.looks[i].act].finish else Clock(f, t, i)
  }

  /** A make or prev line takes over the time of the record it looks at, which is that of the rule it names,
      exactly if no line so far gave that rule the attribute to be ignored; a bind line always does. */
  lemma UsesUnlessIgnored(env: Env, acts: seq<Act>, ties: seq<Tie>, log: seq<Event>, a: nat, i: nat, b: nat)
    requires Sound(env, acts, ties, log) && a < |acts| && SeesAt(acts[a], i, b)
    ensures var f := acts[a];
      && b < a < |ties| && i < |f.track| == |f.looks| == |ties[a].whens| && f.track[i] < |env.lines|
      && if f.looks[i].Saw? then
           && (env.lines[f.track[i]].Make? || env.lines[f.track[i]].Prev?) && env.lines[f.track[i]].rule == acts[b].rule
           && (UsesAt(f, i, b) <==> !ToldToIgnore(env, log, DecidedAt(env, ties, f, ties[a], i), acts[b].rule))
         else env.lines[f.track[i]].Bind? && UsesAt(f, i, b)
  {
    RecordIs(env, acts, ties, log, a);
    SeenEarlier(env.options, env.lines, acts, a, b) by {
      assert Sees(acts, a, b);
    }
    var f, log1 := acts[a], log[..ties[a].finish];
    LookDecides(env, acts[..a], ties[..a], log1, f, ties[a], i, b);
    if f.looks[i].Saw? {
      var n := DecidedAt(env, ties, f, ties[a], i);
      assert ties[..a][b] == ties[b] && acts[..a][b] == acts[b];
      assert log1[..n] == log[..n];
      IgnoreIs(env, log, n, acts[b].rule);
    }
  }

  lemma LookDecides(env: Env, acts: seq<Act>, ties: seq<Tie>, log: seq<Event>, f: Act, t: Tie, i: nat, b: nat)
    requires f.Block? && Tied(env, acts, ties, log, f, t) && Fair(env.options, env.lines, acts, f)
    requires |ties| == |acts| && SeesAt(f, i, b)
    ensures i < |f.track| == |f.looks| == |t.whens| && f.track[i] < |env.lines| && b < |acts|
    ensures f.looks[i].Saw? ==>
      && (env.lines[f.track[i]].Make? || env.lines[f.track[i]].Prev?) && env.lines[f.track[i]].rule == acts[b].rule
      && DecidedAt(env, ties, f, t, i) <= |log|
      && (f.looks[i].ignored <==> HasFlag(env, log[..DecidedAt(env, ties, f, t, i)], acts[b].rule, Ignore))
    ensures !f.looks[i].Saw? ==> env.lines[f.track[i]].Bind?
  {
    assert LookOk(env.lines, acts, f, i) && Step(env, acts, ties, log, f, t, i);
    hide Fair, Head, DoneTied, Steps, HasFlag;
  }
}
