/**
 What a run of mamake over a Mamfile leaves behind (src/cmd/INIT/mamake.c:1548-1717): one record for
 each make ... done block that was read and for each library bound, and what makes such a record fair.
 */
module MakeTrace {
  datatype Flag = Active | DontCare | Error | Exists | Generated | Ignore | Implicit | Made | Virtual

  /** The lines of a Mamfile, after variable substitution. */
  datatype Line =
    | Make(rule: string, attrs: set<Flag>)
    | Done(rule: string, attrs: set<Flag>)
    | Prev(rule: string)
    | Exec(text: string)
    | Bind(libs: seq<string>, attrs: set<Flag>)
    | Other

  datatype Options = Options(exec: bool, force: bool, ignore: bool, keepgoing: bool, never: bool)

  /** What a line of a block looked at: one earlier record, the latest of a rule when there were
      upto records; or a rule with no record yet; or the records of libraries it bound itself. */
  datatype Look =
    | Nothing
    | Unmade(upto: nat)
    | Saw(act: nat, upto: nat, ignored: bool)
    | Libs(first: nat, many: nat)

  /** How a block ended: the input ran out; done without an action; the action was skipped as up to
      date; it was due but the target had failed; it was run and left the target with this time. */
  datatype Outcome = Unfinished | Idle | Fresh | Barred | Ran(time: nat)

  /** A block: the rules being made in it, the lines it read itself and what each looked at, the time
      of the file at its start, the highest time seen, the time of the target when the action was
      decided on, and the time and the state the target was left with. Or a library file bound. */
  datatype Act =
    | Block(rule: string, making: set<string>, active: bool, from: nat, at: nat, stop: nat,
            track: seq<nat>, looks: seq<Look>, own: nat, high: nat, cmd: seq<string>,
            before: nat, outcome: Outcome, excused: bool, ends: nat, failed: bool)
    | File(rule: string, ends: nat, failed: bool)

  /** The file of the target has this time when its record is made. */
  function FileTime(a: Act): nat {
    if a.File? then a.ends
    else if a.outcome.Ran? then a.outcome.time
    else a.own
  }

  /** act is the latest of the first upto records that is about rule q. */
  ghost predicate Latest(acts: seq<Act>, upto: nat, q: string, act: nat) {
    && act < upto <= |acts| && acts[act].rule == q
    && forall j :: act < j < upto ==> acts[j].rule != q
  }

  ghost predicate NoneYet(acts: seq<Act>, upto: nat, q: string) {
    upto <= |acts| && forall j :: 0 <= j < upto ==> acts[j].rule != q
  }

  /** bind lines are for rules other than feature tests. */
  predicate Binds(r: string) {
    !("FEATURE/" <= r) && r != "configure.h"
  }

  function LibsOf(r: string, l: Line): seq<string>
    requires l.Bind?
  {
    if Binds(r) then l.libs else []
  }

  /** The i-th line read by the block looked at what it should. */
  ghost predicate LookOk(lines: seq<Line>, acts: seq<Act>, f: Act, i: nat)
    requires f.Block? && i < |f.track| == |f.looks| && f.track[i] < |lines|
  {
    var look := f.looks[i];
    match lines[f.track[i]]
    case Make(q, _) =>
      if q in f.making then look == Nothing else EntersOk(acts, f, look, q, f.track[i])
    case Prev(q) =>
      if q in f.making then look == Nothing
      else
        || (look.Unmade? && f.from <= look.upto && NoneYet(acts, look.upto, q))
        || (look.Saw? && f.from <= look.upto && Latest(acts, look.upto, q, look.act))
    case Bind(_, _) =>
      look.Libs? && LibsOk(acts, f.from, look, LibsOf(f.rule, lines[f.track[i]]))
    case _ => look == Nothing
  }

  /** A make line looked at the block that starts right behind it. */
  ghost predicate EntersOk(acts: seq<Act>, f: Act, look: Look, q: string, k: nat)
    requires f.Block?
  {
    && look.Saw? && f.from <= look.act < |acts| && look.upto == look.act + 1 && acts[look.act].Block?
    && acts[look.act].rule == q && acts[look.act].at == k + 1 && acts[look.act].making == f.making + {q}
  }

  ghost predicate LibsOk(acts: seq<Act>, from: nat, look: Look, libs: seq<string>)
    requires look.Libs?
  {
    && look.many == |libs| && from <= look.first && look.first + look.many <= |acts|
    && forall j :: 0 <= j < |libs| ==> LibAt(acts, look.first + j, libs[j])
  }

  ghost predicate LibAt(acts: seq<Act>, k: nat, q: string) {
    k < |acts| && acts[k].File? && acts[k].rule == q
  }

  /** The line the block reads behind its i-th. */
  ghost function After(lines: seq<Line>, acts: seq<Act>, f: Act, i: nat): nat
    requires f.Block? && i < |f.track| == |f.looks| && f.track[i] < |lines|
  {
    var look := f.looks[i];
    if lines[f.track[i]].Make? && look.Saw? && look.act < |acts| && acts[look.act].Block? then acts[look.act].stop
    else f.track[i] + 1
  }

  /** The line the block reads i-th, and stops at if it reads no more. */
  ghost function Start(lines: seq<Line>, acts: seq<Act>, f: Act, i: nat): nat
    requires f.Block? && i <= |f.track| == |f.looks| && InRange(lines, f)
  {
    if i == 0 then f.at else After(lines, acts, f, i - 1)
  }

  ghost predicate InRange(lines: seq<Line>, f: Act)
    requires f.Block?
  {
    forall i :: 0 <= i < |f.track| ==> f.track[i] < |lines|
  }

  ghost predicate FlowAt(lines: seq<Line>, acts: seq<Act>, f: Act, i: nat)
    requires f.Block? && i <= |f.track| == |f.looks| && InRange(lines, f)
  {
    (if i < |f.track| then f.track[i] else f.stop) == Start(lines, acts, f, i)
  }

  /** The block read every line from its start, but for the blocks inside it. */
  ghost predicate Flows(lines: seq<Line>, acts: seq<Act>, f: Act)
    requires f.Block? && |f.track| == |f.looks|
  {
    InRange(lines, f) && forall i :: 0 <= i <= |f.track| ==> FlowAt(lines, acts, f, i)
  }

  /** The i-th line of the block looked at record b. */
  ghost predicate SeesAt(f: Act, i: nat, b: nat) {
    && f.Block? && i < |f.looks|
    && match f.looks[i]
       case Saw(act, _, _) => act == b
       case Libs(first, many) => first <= b < first + many
       case _ => false
  }

  /** The i-th line of the block took the time of record b. */
  ghost predicate UsesAt(f: Act, i: nat, b: nat) {
    SeesAt(f, i, b) && (f.looks[i].Saw? ==> !f.looks[i].ignored)
  }

  /** high is the highest time of the file itself and of what the lines used. */
  ghost predicate Highest(acts: seq<Act>, f: Act)
    requires f.Block?
  {
    && f.own <= f.high
    && (forall i: nat, b: nat :: UsesAt(f, i, b) && b < |acts| ==> acts[b].ends <= f.high)
    && (f.high == f.own || exists i: nat, b: nat :: UsesAt(f, i, b) && b < |acts| && acts[b].ends == f.high)
  }

  /** The actions on the exec lines among these. */
  ghost function Texts(lines: seq<Line>, track: seq<nat>): seq<string> {
    if track == [] then []
    else
      var k := track[|track| - 1];
      Texts(lines, track[..|track| - 1]) + if k < |lines| && lines[k].Exec? then [lines[k].text] else []
  }

  /** What holds while a block is read. */
  ghost predicate Partial(lines: seq<Line>, acts: seq<Act>, f: Act) {
    && f.Block? && |f.track| == |f.looks| && f.from <= |acts|
    && Flows(lines, acts, f)
    && (forall i :: 0 <= i < |f.track| ==> LookOk(lines, acts, f, i))
    && Highest(acts, f)
    && f.cmd == (if f.active then Texts(lines, f.track) else [])
  }

  /** The target has the time of its file at the start of the block, or none after an exec line, or
      the time it got when it was bound as a library inside the block. */
  ghost predicate OwnTime(lines: seq<Line>, acts: seq<Act>, f: Act, t: nat)
    requires f.Block?
  {
    t == f.own || (t == 0 && Texts(lines, f.track) != []) || Rebound(acts, f.from, f.rule, t)
  }

  ghost predicate Rebound(acts: seq<Act>, from: nat, q: string, t: nat) {
    exists j: nat :: from <= j < |acts| && acts[j].File? && acts[j].rule == q && acts[j].ends == t
  }

  predicate Due(o: Options, before: nat, high: nat) {
    o.force || before < high || (before == 0 && high == 0)
  }

  ghost predicate Reads(lines: seq<Line>, f: Act, done: bool)
    requires f.Block? && InRange(lines, f)
  {
    && (forall i :: 0 <= i < |f.track| && lines[f.track[i]].Done? ==> i == |f.track| - 1)
    && if done then |f.track| > 0 && lines[f.track[|f.track| - 1]].Done?
       else f.stop >= |lines| && (|f.track| > 0 ==> !lines[f.track[|f.track| - 1]].Done?)
  }

  /** What was decided on the action and what became of the target. */
  ghost predicate Decided(o: Options, f: Act)
    requires f.Block?
  {
    match f.outcome
    case Unfinished => f.ends == f.high
    case Idle => f.cmd == [] && f.ends == f.high
    case Fresh => f.cmd != [] && !Due(o, f.before, f.high) && f.ends == f.high
    case Barred => f.cmd != [] && Due(o, f.before, f.high) && f.failed && f.ends == Max(f.high, f.before)
    case Ran(time) => f.cmd != [] && Due(o, f.before, f.high) && f.ends == Max(f.high, time)
  }

  function Max(a: nat, b: nat): nat {
    if a < b then b else a
  }

  /** A failure seen is a failure of the block, and then its action was not run. */
  ghost predicate Fails(acts: seq<Act>, f: Act) {
    forall i: nat, b: nat :: SeesAt(f, i, b) && b < |acts| && acts[b].failed ==> f.failed && !f.outcome.Ran?
  }

  /** A record is fair with respect to those before it. */
  ghost predicate Fair(o: Options, lines: seq<Line>, acts: seq<Act>, f: Act) {
    && (!o.keepgoing ==> !f.failed)
    && (f.Block? ==>
          && Partial(lines, acts, f)
          && Reads(lines, f, !f.outcome.Unfinished?)
          && Decided(o, f)
          && OwnTime(lines, acts, f, f.before)
          && Fails(acts, f)
          && (!f.outcome.Unfinished? ==> f.failed || f.excused))
  }

  ghost predicate AllFair(o: Options, lines: seq<Line>, acts: seq<Act>) {
    forall a :: 0 <= a < |acts| ==> Fair(o, lines, acts[..a], acts[a])
  }

  /** A block starts behind the make line of its rule, or is the outermost. */
  predicate StartsAt(lines: seq<Line>, rule: string, at: nat) {
    rule == "" || (0 < at <= |lines| && lines[at - 1].Make? && lines[at - 1].rule == rule)
  }

  /** Blocks that end later end further down, at a done line of their own. */
  ghost predicate Grown(lines: seq<Line>, acts: seq<Act>, pos: nat) {
    && (forall a :: 0 <= a < |acts| && acts[a].Block? ==>
          acts[a].stop <= pos && StartsAt(lines, acts[a].rule, acts[a].at))
    && forall a, b :: 0 <= a < b < |acts| && acts[a].Block? && acts[b].Block? ==>
         acts[a].stop < acts[b].stop || (acts[b].outcome.Unfinished? && acts[a].stop == acts[b].stop)
  }

  lemma GrownFile(lines: seq<Line>, acts: seq<Act>, a: Act, pos: nat)
    requires Grown(lines, acts, pos) && a.File?
    ensures Grown(lines, acts + [a], pos)
  {
  }

  lemma GrownBlock(lines: seq<Line>, acts: seq<Act>, a: Act, pos: nat)
    requires Grown(lines, acts, pos) && a.Block? && StartsAt(lines, a.rule, a.at)
    requires if a.outcome.Unfinished? then a.stop == pos else a.stop == pos + 1
    ensures Grown(lines, acts + [a], a.stop)
  {
  }

  lemma GrownLater(lines: seq<Line>, acts: seq<Act>, pos: nat, pos': nat)
    requires Grown(lines, acts, pos) && pos <= pos'
    ensures Grown(lines, acts, pos')
  {
  }

  // What follows from a fair trace.

  ghost predicate Uses(acts: seq<Act>, a: nat, b: nat) {
    a < |acts| && exists i: nat :: UsesAt(acts[a], i, b)
  }

  ghost predicate Sees(acts: seq<Act>, a: nat, b: nat) {
    a < |acts| && exists i: nat :: SeesAt(acts[a], i, b)
  }

  /** Each record on the path took the time of the next. */
  ghost predicate UsePath(acts: seq<Act>, p: seq<nat>) {
    |p| > 0 && p[0] < |acts| && forall i :: 0 < i < |p| ==> Uses(acts, p[i - 1], p[i])
  }

  /** Each record on the path looked at the next. */
  ghost predicate SeePath(acts: seq<Act>, p: seq<nat>) {
    |p| > 0 && p[0] < |acts| && forall i :: 0 < i < |p| ==> Sees(acts, p[i - 1], p[i])
  }

  /** Records look at earlier ones only. */
  lemma SeenEarlier(o: Options, lines: seq<Line>, acts: seq<Act>, a: nat, b: nat)
    requires AllFair(o, lines, acts) && Sees(acts, a, b)
    ensures b < a < |acts|
  {
    var f := acts[a];
    var i: nat :| SeesAt(f, i, b);
    assert Fair(o, lines, acts[..a], f) && LookOk(lines, acts[..a], f, i);
  }

  /** Times only grow along the paths by which they are taken over. */
  lemma {:induction false} Newest(o: Options, lines: seq<Line>, acts: seq<Act>, p: seq<nat>)
    requires AllFair(o, lines, acts) && UsePath(acts, p)
    ensures p[|p| - 1] < |acts| && FileTime(acts[p[|p| - 1]]) <= acts[p[|p| - 1]].ends <= acts[p[0]].ends
    decreases |p|
  {
    assert Fair(o, lines, acts[..p[0]], acts[p[0]]);
    if |p| > 1 {
      UsedTime(o, lines, acts, p[0], p[1]);
      var q := p[1..];
      forall i | 0 < i < |q| ensures Uses(acts, q[i - 1], q[i]) {
        assert Uses(acts, p[i + 1 - 1], p[i + 1]);
      }
      Newest(o, lines, acts, q);
    }
  }

  lemma UsedTime(o: Options, lines: seq<Line>, acts: seq<Act>, a: nat, b: nat)
    requires AllFair(o, lines, acts) && Uses(acts, a, b)
    ensures b < a < |acts| && acts[a].Block? && acts[b].ends <= acts[a].high <= acts[a].ends
  {
    var f := acts[a];
    var i: nat :| UsesAt(f, i, b);
    assert Sees(acts, a, b);
    SeenEarlier(o, lines, acts, a, b);
    assert Fair(o, lines, acts[..a], f);
    assert acts[..a][b].ends <= f.high;
  }

  /** A target's action is skipped as up to date only if nothing is forced and the target is at least
      as new as every file it depends on, directly or through others, by edges that are not ignored. */
  lemma SkippedOnlyIfNewest(o: Options, lines: seq<Line>, acts: seq<Act>, p: seq<nat>)
    requires AllFair(o, lines, acts) && UsePath(acts, p) && |p| > 1
    requires acts[p[0]].Block? && acts[p[0]].outcome.Fresh?
    ensures !o.force && 0 < acts[p[0]].before && p[|p| - 1] < |acts|
    ensures FileTime(acts[p[|p| - 1]]) <= acts[p[0]].before
  {
    UsedTime(o, lines, acts, p[0], p[1]);
    var q := p[1..];
    forall i | 0 < i < |q| ensures Uses(acts, q[i - 1], q[i]) {
      assert Uses(acts, p[i + 1 - 1], p[i + 1]);
    }
    Newest(o, lines, acts, q);
    assert Fair(o, lines, acts[..p[0]], acts[p[0]]);
  }

  /** The target is no older than its file was and the files whose time it took. */
  ghost predicate UpToDate(acts: seq<Act>, a: nat)
    requires a < |acts| && acts[a].Block?
  {
    && acts[a].own <= acts[a].before
    && forall b: nat :: b < |acts| && Uses(acts, a, b) ==> acts[b].ends <= acts[a].before
  }

  /** The action of a block that was read to its done line, in an active target, is due exactly if all
      is forced, or the target is older than its own file was or than a file whose time it took, or
      neither it nor any of these exists. */
  lemma DueExactlyIf(o: Options, lines: seq<Line>, acts: seq<Act>, a: nat)
    requires AllFair(o, lines, acts) && a < |acts| && acts[a].Block? && !acts[a].outcome.Unfinished?
    requires acts[a].active && Texts(lines, acts[a].track) != []
    ensures acts[a].outcome.Fresh? <==> !o.force && 0 < acts[a].before && UpToDate(acts, a)
    ensures !acts[a].outcome.Idle?
  {
    var f := acts[a];
    assert Fair(o, lines, acts[..a], f);
    forall b: nat | b < |acts| && Uses(acts, a, b) ensures b < a && acts[b].ends <= f.high {
      UsedTime(o, lines, acts, a, b);
    }
    if f.high != f.own {
      var i: nat, b: nat :| UsesAt(f, i, b) && b < a && acts[..a][b].ends == f.high;
      assert Uses(acts, a, b) && acts[b].ends == f.high;
    }
  }

  /** The record's target has this time: its file now, or when its block started, or, if its action was
      barred, when that was decided. */
  predicate HasTime(f: Act, time: nat) {
    time == FileTime(f) || (f.Block? && (time == f.own || (f.outcome.Barred? && time == f.before)))
  }

  predicate NoNewer(f: Act, time: nat) {
    FileTime(f) <= time && (f.Block? ==> f.own <= time && (f.outcome.Barred? ==> f.before <= time))
  }

  /** The time a record ends with is that of a target it depends on, or its own. */
  lemma {:induction false} EndsOnPath(o: Options, lines: seq<Line>, acts: seq<Act>, a: nat) returns (p: seq<nat>)
    requires AllFair(o, lines, acts) && a < |acts|
    ensures UsePath(acts, p) && p[0] == a && p[|p| - 1] < |acts| && HasTime(acts[p[|p| - 1]], acts[a].ends)
    decreases a
  {
    var f := acts[a];
    p := [a];
    assert Fair(o, lines, acts[..a], f);
    if !HasTime(f, f.ends) {
      var i: nat, b: nat :| UsesAt(f, i, b) && b < a && acts[..a][b].ends == f.high;
      assert Uses(acts, a, b) && acts[b].ends == f.ends;
      var q := EndsOnPath(o, lines, acts, b);
      p := [a] + q;
      PathBehind(acts, a, q);
    }
  }

  lemma PathBehind(acts: seq<Act>, a: nat, q: seq<nat>)
    requires UsePath(acts, q) && Uses(acts, a, q[0])
    ensures UsePath(acts, [a] + q) && ([a] + q)[|q|] == q[|q| - 1]
  {
    var p := [a] + q;
    forall i | 0 < i < |p| ensures Uses(acts, p[i - 1], p[i]) {
      if i > 1 {
        assert Uses(acts, q[i - 2], q[i - 1]);
      }
    }
  }

  /** No record that this one depends on, directly or through others, has a newer target. */
  ghost predicate NewestOfAll(acts: seq<Act>, a: nat, time: nat) {
    forall p :: UsePath(acts, p) && |p| > 1 && p[0] == a && p[|p| - 1] < |acts| ==> NoNewer(acts[p[|p| - 1]], time)
  }

  /** In an active target with an action, that is skipped exactly if nothing is forced and the target is there
      and no older than its own file was and than all that it depends on. */
  lemma SkippedExactlyIfNewest(o: Options, lines: seq<Line>, acts: seq<Act>, a: nat)
    requires AllFair(o, lines, acts) && a < |acts| && acts[a].Block? && !acts[a].outcome.Unfinished?
    requires acts[a].active && Texts(lines, acts[a].track) != []
    ensures acts[a].outcome.Fresh? <==>
      !o.force && 0 < acts[a].before && acts[a].own <= acts[a].before && NewestOfAll(acts, a, acts[a].before)
  {
    var u := acts[a].before;
    DueExactlyIf(o, lines, acts, a);
    hide Fair;
    if UpToDate(acts, a) {
      forall p | UsePath(acts, p) && |p| > 1 && p[0] == a && p[|p| - 1] < |acts| ensures NoNewer(acts[p[|p| - 1]], u) {
        var q := p[1..];
        forall i | 0 < i < |q| ensures Uses(acts, q[i - 1], q[i]) {
          assert Uses(acts, p[i + 1 - 1], p[i + 1]);
        }
        assert Uses(acts, p[1 - 1], p[1]);
        UsedTime(o, lines, acts, a, p[1]);
        Newest(o, lines, acts, q);
        NoNewerThanEnds(o, lines, acts, p[|p| - 1]);
      }
    }
    if acts[a].own <= u && NewestOfAll(acts, a, u) {
      forall b: nat | b < |acts| && Uses(acts, a, b) ensures acts[b].ends <= u {
        var q := EndsOnPath(o, lines, acts, b);
        PathBehind(acts, a, q);
        assert NoNewer(acts[([a] + q)[|q|]], u);
      }
    }
  }

  lemma NoNewerThanEnds(o: Options, lines: seq<Line>, acts: seq<Act>, a: nat)
    requires AllFair(o, lines, acts) && a < |acts|
    ensures NoNewer(acts[a], acts[a].ends)
  {
    assert Fair(o, lines, acts[..a], acts[a]);
  }

  /** A failure spreads to all that depend on it, ignored or not, and there no action is run. */
  lemma {:induction false} FailureSpreads(o: Options, lines: seq<Line>, acts: seq<Act>, p: seq<nat>)
    requires AllFair(o, lines, acts) && SeePath(acts, p) && p[|p| - 1] < |acts| && acts[p[|p| - 1]].failed
    ensures o.keepgoing && acts[p[0]].failed
    ensures |p| > 1 ==> acts[p[0]].Block? && !acts[p[0]].outcome.Ran?
    decreases |p|
  {
    assert Fair(o, lines, acts[..p[0]], acts[p[0]]);
    if |p| > 1 {
      SeenEarlier(o, lines, acts, p[0], p[1]);
      var q := p[1..];
      forall i | 0 < i < |q| ensures Sees(acts, q[i - 1], q[i]) {
        assert Sees(acts, p[i + 1 - 1], p[i + 1]);
      }
      FailureSpreads(o, lines, acts, q);
      var i: nat :| SeesAt(acts[p[0]], i, p[1]);
      assert acts[..p[0]][p[1]].failed;
    }
  }
}
