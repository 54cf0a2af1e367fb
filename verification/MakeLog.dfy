/**
 What a run of mamake does to its rules, as a log of events, and how the records of the run are tied to
 that log and through it to the file system, the shell, the attributes on the lines and the targets on
 the command line (src/cmd/INIT/mamake.c:341-357, 1021-1036, 1180-1280, 1393-1426, 1548-1717).
 */
module MakeLog {
  import opened MakeTrace
  import opened Wrappers

  /** What find reports of a file: its time, and whether it is in a lower view. */
  datatype Found = Found(time: nat, lower: bool)

  /** What the shell makes of an action: its exit code, the time of the target then, if it is there,
      and the time of day. */
  datatype Result = Result(code: nat, time: Option<nat>, now: nat)

  /** All that a run depends on: what find reports for a name, and the shell for an action, when that
      many lines were read; and the targets on the command line, none meaning all. */
  datatype Env = Env(options: Options, lines: seq<Line>, find: (nat, string) -> Option<Found>, shell: nat -> Result,
                     targets: set<string>)

  /** A rule was given the attributes on a line; was looked for as a file when pos lines were read; was
      generated by an exec line; had its action run, by the shell or not; failed; ended its block. */
  datatype Event =
    | Attributed(rule: string, line: nat)
    | LookedFor(rule: string, pos: nat)
    | Regenerated(rule: string, line: nat)
    | RanAction(rule: string, pos: nat, shelled: bool)
    | MarkedFailed(rule: string)
    | Finished(rule: string, time: nat)

  /** The attributes that a line may give. */
  function Allowed(attrs: set<Flag>): (r: set<Flag>)
    ensures r <= attrs && Active !in r && Error !in r && Exists !in r && Made !in r
  {
    attrs * {DontCare, Generated, Ignore, Implicit, Virtual}
  }

  function AttrsOf(l: Line): set<Flag> {
    if l.Make? || l.Done? || l.Bind? then l.attrs else {}
  }

  predicate IsRecursive(cmd: seq<string>) {
    cmd != [] && "mamake -r " <= cmd[0]
  }

  /** Recursive runs are left out by -N only. */
  predicate Executes(o: Options, cmd: seq<string>)
    requires cmd != []
  {
    if IsRecursive(cmd) then !o.never else o.exec
  }

  /** The action is run by the shell, goes wrong, and that is not ignored. */
  predicate GoesWrong(o: Options, cmd: seq<string>, shell: Result)
    requires cmd != []
  {
    Executes(o, cmd) && shell.code != 0 && !o.ignore
  }

  /** The time that an action leaves: that of the target if the shell ran and it is there. */
  function ActionTime(r: Result, shelled: bool): nat {
    if shelled && r.time.Some? then r.time.value else r.now
  }

  // What the log says of a rule.

  /** The flags that an event gives to its rule. */
  predicate Gives(env: Env, e: Event, flag: Flag) {
    match e
    case Attributed(_, line) => line < |env.lines| && flag in Allowed(AttrsOf(env.lines[line]))
    case LookedFor(q, pos) => flag == Exists && env.find(pos, q).Some?
    case Regenerated(_, _) => flag == Generated
    case RanAction(_, pos, shelled) => flag == Exists && (!shelled || env.shell(pos).time.Some?)
    case MarkedFailed(_) => flag == Error
    case Finished(_, _) => false
  }

  /** A flag is on a rule once an event gave it; the targets are active. */
  ghost predicate HasFlag(env: Env, log: seq<Event>, q: string, flag: Flag) {
    (flag == Active && q in env.targets) || exists i :: 0 <= i < |log| && log[i].rule == q && Gives(env, log[i], flag)
  }

  /** The file of the rule was found in a lower view and not generated since. */
  function Lower(env: Env, log: seq<Event>, q: string): bool {
    if log == [] then false
    else
      var n, e := |log| - 1, log[|log| - 1];
      if e.rule != q then Lower(env, log[..n], q)
      else match e
        case LookedFor(_, pos) => Lower(env, log[..n], q) || (env.find(pos, q).Some? && env.find(pos, q).value.lower)
        case Regenerated(_, _) => false
        case _ => Lower(env, log[..n], q)
  }

  /** The time of a rule: of its file when it was last found, or none if that was forgotten, or what its
      action left, or what its block ended with. */
  function TimeAfter(env: Env, log: seq<Event>, q: string): nat {
    if log == [] then 0
    else
      var n, e := |log| - 1, log[|log| - 1];
      if e.rule != q then TimeAfter(env, log[..n], q)
      else match e
        case LookedFor(_, pos) => if env.find(pos, q).Some? then env.find(pos, q).value.time
          else TimeAfter(env, log[..n], q)
        case Regenerated(_, _) => if Lower(env, log[..n], q) then 0 else TimeAfter(env, log[..n], q)
        case RanAction(_, pos, shelled) => ActionTime(env.shell(pos), shelled)
        case Finished(_, time) => time
        case _ => TimeAfter(env, log[..n], q)
  }

  // How records are tied to the log.

  /** Where in the log a record starts, where the log was when each of its lines was done, and where the
      record ends. */
  datatype Tie = Tie(start: nat, whens: seq<nat>, finish: nat)

  /** Where the log was before the i-th line of a block. */
  function Clock(f: Act, t: Tie, i: nat): nat
    requires i <= |t.whens|
  {
    if i > 0 then t.whens[i - 1] else if f.rule == "" then t.start else t.start + 1
  }

  ghost predicate EventAt(log: seq<Event>, k: nat, e: Event) {
    k < |log| && log[k] == e
  }

  /** A failure that a line saw is one of the block. */
  ghost predicate Spoils(log: seq<Event>, from: nat, to: nat, r: string, failed: bool) {
    if failed then to == from + 1 && EventAt(log, from, MarkedFailed(r)) else to == from
  }

  /** Behind a library that a bind line bound. */
  function Behind(acts: seq<Act>, ties: seq<Tie>, b: nat): nat
    requires b < |acts| == |ties|
  {
    ties[b].finish + if acts[b].failed then 1 else 0
  }

  /** The j-th library of line k is given the attributes of the line and looked for. */
  ghost predicate LibTied(acts: seq<Act>, ties: seq<Tie>, log: seq<Event>, r: string, k: nat, c: nat, first: nat,
                          j: nat) {
    && first + j < |acts| == |ties|
    && var b := first + j;
    && ties[b].start == (if j == 0 then c else Behind(acts, ties, b - 1))
    && EventAt(log, ties[b].start, Attributed(acts[b].rule, k))
       && EventAt(log, ties[b].start + 1, LookedFor(acts[b].rule, k + 1))
    && (acts[b].failed ==> EventAt(log, ties[b].finish, MarkedFailed(r)))
  }

  /** The i-th line of a block did to the log what such a line does, and saw whether to ignore. */
  ghost predicate Step(env: Env, acts: seq<Act>, ties: seq<Tie>, log: seq<Event>, f: Act, t: Tie, i: nat)
    requires f.Block? && i < |f.track| == |f.looks| == |t.whens| && f.track[i] < |env.lines|
  {
    var k, c, w, look := f.track[i], Clock(f, t, i), t.whens[i], f.looks[i];
    && c <= w <= |log| && |ties| == |acts|
    && match env.lines[k]
       case Exec(_) => w == c + 1 && EventAt(log, c, Regenerated(f.rule, k))
       case Done(_, _) => w == c + 1 && EventAt(log, c, Attributed(f.rule, k))
       case Make(q, _) =>
         if look.Saw? then
           && look.act < |acts| && EventAt(log, c, Attributed(q, k)) && ties[look.act].start == c + 1
           && c < ties[look.act].finish <= w
              && (look.ignored <==> HasFlag(env, log[..ties[look.act].finish], q, Ignore))
           && Spoils(log, ties[look.act].finish, w, f.rule, acts[look.act].failed)
         else w == c
       case Prev(q) =>
         if look.Saw? then
           && look.act < |acts| && ties[look.act].finish <= c && (look.ignored <==> HasFlag(env, log[..c], q, Ignore))
           && Spoils(log, c, w, f.rule, acts[look.act].failed)
         else w == c
       case Bind(_, _) =>
         && look.Libs? && look.first + look.many <= |acts|
         && (forall j :: 0 <= j < look.many ==> LibTied(acts, ties, log, f.rule, k, c, look.first, j))
         && w == if look.many == 0 then c else Behind(acts, ties, look.first + look.many - 1)
       case Other => w == c
  }

  /** The block starts by looking for its target, whose time then is the time of the file if there is
      one; it is active if all is, or a target on the command line is being made. */
  ghost predicate Head(env: Env, log: seq<Event>, f: Act, t: Tie)
    requires f.Block?
  {
    && (f.rule != "" ==> EventAt(log, t.start, LookedFor(f.rule, f.at)))
    && Clock(f, t, 0) <= |log|
    && f.own == TimeAfter(env, log[..Clock(f, t, 0)], f.rule)
    && (f.active <==> env.targets == {} || f.making * env.targets != {})
  }

  ghost predicate SawFailed(acts: seq<Act>, f: Act) {
    exists i: nat, b: nat :: SeesAt(f, i, b) && b < |acts| && acts[b].failed
  }

  /** The target had failed before the block. */
  ghost predicate HadFailed(env: Env, log: seq<Event>, f: Act, t: Tie) {
    t.start <= |log| && HasFlag(env, log[..t.start], f.rule, Error)
  }

  ghost predicate Steps(env: Env, acts: seq<Act>, ties: seq<Tie>, log: seq<Event>, f: Act, t: Tie)
    requires f.Block? && |f.track| == |f.looks| == |t.whens|
  {
    forall i :: 0 <= i < |f.track| ==> f.track[i] < |env.lines| && Step(env, acts, ties, log, f, t, i)
  }

  /** A record of a block while it is read. */
  ghost predicate Telling(env: Env, acts: seq<Act>, ties: seq<Tie>, log: seq<Event>, f: Act, t: Tie) {
    && f.Block? && |f.track| == |f.looks| == |t.whens| && t.start <= |log|
    && Head(env, log, f, t) && Steps(env, acts, ties, log, f, t)
    && |log| == Clock(f, t, |t.whens|)
    && (HasFlag(env, log, f.rule, Error) <==> HadFailed(env, log, f, t) || SawFailed(acts, f))
  }

  /** The action of the block was run, and went wrong. */
  predicate WentWrong(env: Env, f: Act, k: nat) {
    f.Block? && f.outcome.Ran? && f.cmd != [] && GoesWrong(env.options, f.cmd, env.shell(k))
  }

  /** A target that is not there is excused by an attribute, or as generated. */
  ghost predicate IsExcused(env: Env, log: seq<Event>, q: string) {
    || HasFlag(env, log, q, DontCare) || HasFlag(env, log, q, Exists) || HasFlag(env, log, q, Generated)
    || HasFlag(env, log, q, Implicit) || HasFlag(env, log, q, Virtual)
  }

  /** Where the log is behind the action of a block that ends with line k, at decided. */
  function ActionEnd(env: Env, f: Act, k: nat, decided: nat): nat
    requires f.Block?
  {
    if !f.outcome.Ran? then decided else decided + if WentWrong(env, f, k) then 2 else 1
  }

  /** The action at the done line k: if it is run, the target is left with the time that the shell or the
      time of day gives it, and has failed if that went wrong. */
  ghost predicate ActionTied(env: Env, log: seq<Event>, f: Act, k: nat, decided: nat)
    requires f.Block?
  {
    && (f.outcome.Ran? ==>
          && f.cmd != [] && EventAt(log, decided, RanAction(f.rule, k, Executes(env.options, f.cmd)))
          && f.outcome.time == ActionTime(env.shell(k), Executes(env.options, f.cmd)))
    && (WentWrong(env, f, k) ==> EventAt(log, decided + 1, MarkedFailed(f.rule)))
  }

  /** The block ended at its done line k. */
  ghost predicate DoneTied(env: Env, log: seq<Event>, f: Act, t: Tie, k: nat, decided: nat)
    requires f.Block?
  {
    var e := ActionEnd(env, f, k, decided);
    && decided <= |log| && f.before == TimeAfter(env, log[..decided], f.rule)
    && ActionTied(env, log, f, k, decided)
    && e <= |log| && (f.excused <==> IsExcused(env, log[..e], f.rule))
    && var judged := e + if !HasFlag(env, log[..e], f.rule, Error) && !f.excused then 1 else 0;
    && (judged == e + 1 ==> EventAt(log, e, MarkedFailed(f.rule)))
    && EventAt(log, judged, Finished(f.rule, f.ends)) && t.finish == judged + 1
  }

  /** A record is tied to the log: a block, and what became of it; or a library file, which has the time
      that find reports or else the time it had. */
  ghost predicate Tied(env: Env, acts: seq<Act>, ties: seq<Tie>, log: seq<Event>, a: Act, t: Tie) {
    && t.finish == |log|
    && match a
       case File(q, ends, failed) =>
         && t.start + 2 == |log| && log[t.start].Attributed? && log[t.start].rule == q
         && log[t.start + 1] == LookedFor(q, log[t.start].line + 1) && ends == TimeAfter(env, log, q)
            && (failed <==> HasFlag(env, log, q, Error))
       case Block(_, _, _, _, _, _, _, _, _, _, _, _, _, _, _, _) =>
         && |a.track| == |a.looks| == |t.whens| && t.start <= |log|
         && Head(env, log, a, t) && Steps(env, acts, ties, log, a, t)
         && if a.outcome.Unfinished? then
              && EventAt(log, Clock(a, t, |t.whens|), Finished(a.rule, a.ends))
                 && t.finish == Clock(a, t, |t.whens|) + 1
              && (a.failed <==> HadFailed(env, log, a, t) || SawFailed(acts, a))
            else
              && |a.track| > 0 && DoneTied(env, log, a, t, a.track[|a.track| - 1], Clock(a, t, |t.whens|))
              && (a.outcome.Ran? ==> !HadFailed(env, log, a, t) && !SawFailed(acts, a))
              && (a.outcome.Barred? ==> HadFailed(env, log, a, t) || SawFailed(acts, a))
              && (a.failed <==>
                    || HadFailed(env, log, a, t) || SawFailed(acts, a)
                    || WentWrong(env, a, a.track[|a.track| - 1]) || !a.excused)
  }

  /** Records are made in the order of the log. */
  predicate InOrder(ties: seq<Tie>) {
    forall a, b :: 0 <= a < b < |ties| ==> ties[a].finish <= ties[b].finish
  }

  ghost predicate AllTied(env: Env, acts: seq<Act>, ties: seq<Tie>, log: seq<Event>) {
    && |ties| == |acts| && InOrder(ties)
    && forall a :: 0 <= a < |acts| ==> TiedAt(env, acts, ties, log, a)
  }

  ghost predicate TiedAt(env: Env, acts: seq<Act>, ties: seq<Tie>, log: seq<Event>, a: nat) {
    && a < |acts| == |ties| && ties[a].finish <= |log|
    && Tied(env, acts[..a], ties[..a], log[..ties[a].finish], acts[a], ties[a])
  }
}
