/**
 How the record of a block is tied to the log when the block starts and when it ends
 (src/cmd/INIT/mamake.c:1561-1570, 1623-1645, 1706-1716).
 */
module MakeEnds {
  import opened MakeLog
  import opened MakeTrace
  import opened MakeSteps
  import opened MakeLines
  import opened MakeMirror
  import opened MakeTies
  import opened Wrappers

  // The active targets.

  lemma ActiveIsTarget(env: Env, s: State, log: seq<Event>, q: string)
    requires MirrorAt(env, s, log, q)
    ensures Active in Get(s, q).flags <==> q in env.targets
  {
    assert Active != Made;
    assert Active in Get(s, q).flags <==> HasFlag(env, log, q, Active);
    hide Allowed;
  }

  lemma OneMoreTarget(making: set<string>, targets: set<string>, r: string)
    requires r !in making
    ensures |(making + {r}) * targets| == |making * targets| + if r in targets then 1 else 0
  {
    if r in targets {
      assert (making + {r}) * targets == making * targets + {r};
    } else {
      assert (making + {r}) * targets == making * targets;
    }
  }

  /** A target is active exactly if all is or one of those being made was named. */
  lemma ActiveIf(env: Env, s: State, making: set<string>)
    requires Counts(env, s, making)
    ensures s.active > 0 <==> env.targets == {} || making * env.targets != {}
  {
  }

  /** At the end of the Mamfile none is being made. */
  lemma EndFacts(env: Env, s: State, acts: seq<Act>, l: Logged)
    requires Told(env, s, acts, l, {})
    ensures s.active == 0 <==> env.targets != {}
    ensures forall q :: Active in Get(s, q).flags <==> q in env.targets
  {
    hide AllTied;
    assert {} * env.targets == {};
    forall q ensures Active in Get(s, q).flags <==> q in env.targets {
      assert MirrorAt(env, s, l.log, q);
      ActiveIsTarget(env, s, l.log, q);
    }
  }

  /** The events at the start of a block. */
  function Opening(r: string, pos: nat): seq<Event> {
    if r != "" then [LookedFor(r, pos)] else []
  }

  lemma BeginActive(s: State, r: string, found: Option<Found>)
    ensures Begin(s, r, found).pos == s.pos
    ensures Begin(s, r, found).active == s.active + if Active in Get(s, r).flags then 1 else 0
  {
  }

  lemma CountsOpen(env: Env, s: State, log: seq<Event>, making: set<string>, r: string)
    requires MirrorAt(env, s, log, r) && Counts(env, s, making) && r !in making
    ensures Counts(env, Begin(s, r, env.find(s.pos, r)), making + {r}) && Begin(s, r, env.find(s.pos, r)).pos == s.pos
  {
    hide MirrorAt, Begin, Get;
    ActiveIsTarget(env, s, log, r);
    BeginActive(s, r, env.find(s.pos, r));
    OneMoreTarget(making, env.targets, r);
  }

  lemma TellOpen(env: Env, s: State, log: seq<Event>, making: set<string>, r: string)
    requires Mirrors(env, s, log) && Counts(env, s, making) && r !in making
    ensures var s1, log1 := Begin(s, r, env.find(s.pos, r)), log + Opening(r, s.pos);
      && Mirrors(env, s1, log1) && Counts(env, s1, making + {r})
      && (HasFlag(env, log1, r, Error) <==> HasFlag(env, log, r, Error))
      && s1.pos == s.pos && Get(s1, r).time == TimeAfter(env, log1, r)
  {
    assert MirrorAt(env, s, log, r);
    hide HasFlag, TimeAfter, Lower, MirrorAt, Counts;
    CountsOpen(env, s, log, making, r);
    MirrorOpen(env, s, log, r);
    if r == "" {
      assert log + Opening(r, s.pos) == log;
    } else {
      hide Mirrors;
      MirrorBind(env, Open(s, r), log, r, s.pos);
      Appended(env, log, LookedFor(r, s.pos), r);
    }
    OpenTime(env, Begin(s, r, env.find(s.pos, r)), log + Opening(r, s.pos), r);
  }

  lemma OpenTime(env: Env, s: State, log: seq<Event>, r: string)
    requires Mirrors(env, s, log)
    ensures Get(s, r).time == TimeAfter(env, log, r)
  {
    assert MirrorAt(env, s, log, r);
  }

  lemma OpenError(env: Env, s: State, log: seq<Event>, r: string)
    requires Mirrors(env, s, log)
    ensures Error in Get(s, r).flags <==> HasFlag(env, log, r, Error)
  {
    assert MirrorAt(env, s, log, r) && Error != Made;
    hide HasFlag, TimeAfter, Lower;
  }

  /** A block starts. */
  lemma TellBegin(env: Env, s: State, t: Trace, l: Logged, making: set<string>, r: string)
    returns (l1: Logged, tie: Tie)
    requires Told(env, s, t.acts, l, making) && r !in making
    ensures l1 == Logged(l.ties, l.log + Opening(r, s.pos)) && tie == Tie(|l.log|, [], 0)
    ensures var s1 := Begin(s, r, env.find(s.pos, r));
      Told(env, s1, t.acts, l1, making + {r}) && Tells(env, t.acts, l1, Beginning(s1, t, making, r), tie)
  {
    hide Mirrors, AllTied, Begin, HasFlag, TimeAfter, Counts, Telling, Beginning, Get;
    var s1 := Begin(s, r, env.find(s.pos, r));
    l1, tie := Logged(l.ties, l.log + Opening(r, s.pos)), Tie(|l.log|, [], 0);
    TellOpen(env, s, l.log, making, r);
    assert l1.log[..|l.log|] == l.log;
    AllTiedLater(env, t.acts, l.ties, l.log, l1.log);
    ActiveIf(env, s1, making + {r});
    FirstTold(env, s1, t, l1, making, r, tie);
  }

  /** No line of the block was read yet. */
  lemma FirstTold(env: Env, s: State, t: Trace, l: Logged, making: set<string>, r: string, tie: Tie)
    requires tie == Tie(tie.start, [], 0) && tie.start <= |l.log|
      && |l.log| == (if r == "" then tie.start else tie.start + 1)
    requires r != "" ==> EventAt(l.log, tie.start, LookedFor(r, s.pos))
    requires Get(s, r).time == TimeAfter(env, l.log, r)
    requires s.active > 0 <==> env.targets == {} || (making + {r}) * env.targets != {}
    requires HasFlag(env, l.log, r, Error) <==> HasFlag(env, l.log[..tie.start], r, Error)
    ensures Tells(env, t.acts, l, Beginning(s, t, making, r), tie)
  {
    hide HasFlag, TimeAfter;
    assert l.log[..|l.log|] == l.log;
  }

  // The done line.

  /** The events of an action. */
  function Action(env: Env, a: Act, k: nat): seq<Event>
    requires a.Block? && (a.outcome.Ran? ==> a.cmd != [])
  {
    if !a.outcome.Ran? then []
    else [RanAction(a.rule, k, Executes(env.options, a.cmd))] + if WentWrong(env, a, k) then [MarkedFailed(a.rule)]
      else []
  }

  lemma TellDoneRead(env: Env, s: State, acts: seq<Act>, l: Logged, f: Act, t: Tie, making: set<string>, q: string,
                     attrs: set<Flag>, g: Act) returns (l1: Logged)
    requires Told(env, s, acts, l, making) && Tells(env, acts, l, f, t)
    requires f.Block? && (forall i: nat, b: nat :: SeesAt(f, i, b) ==> b < |acts|)
    requires f.stop == s.pos < |env.lines| && env.lines[s.pos] == Done(q, attrs)
    requires g == Read(f, Nothing, f.high, f.stop + 1, f.cmd)
    ensures l1 == Logged(l.ties, l.log + [Attributed(f.rule, s.pos)]) && |l.ties| == |acts|
    ensures Told(env, DoneRead(s, f.rule, q, attrs), acts, l1, making)
    ensures Tells(env, acts, l1, g, t.(whens := t.whens + [|l1.log|]))
  {
    var e := Attributed(f.rule, s.pos);
    var s0 := Give(s, f.rule, attrs);
    l1 := Logged(l.ties, l.log + [e]);
    assert AttrsOf(env.lines[s.pos]) == attrs && |acts| == |l.ties|;
    assert s0.rules == DoneRead(s, f.rule, q, attrs).rules
      && s0.active == DoneRead(s, f.rule, q, attrs).active == s.active;
    hide HasFlag, Mirrors, AllTied, TimeAfter, DoneRead, Give;
    MirrorGive(env, s, l.log, f.rule, s.pos);
    ToldMore(env, s, acts, l, making, s0, e);
    ToldPos(env, s0, acts, l1, making, DoneRead(s, f.rule, q, attrs));
    Appended(env, l.log, e, f.rule);
    TellMore(env, acts, l, f, t, acts, l1, g, Nothing);
  }

  lemma RunAlike(env: Env, s: State, q: string, cmd: seq<string>, k: nat)
    requires cmd != [] && Error !in Get(s, q).flags
    requires !Run(env.options, s, q, cmd, env.shell(k)).exited
    ensures
      var s1 := AfterAction(s, q, env.shell(k), Executes(env.options, cmd));
      var s2 := Run(env.options, s, q, cmd, env.shell(k));
      && Alike(Get(if GoesWrong(env.options, cmd, env.shell(k)) then Mark(s1, q, Error) else s1, q), Get(s2, q))
      && (forall p :: p != q ==> Get(s2, p) == Get(s, p) == Get(s1, p))
      && Get(s2, q).time == ActionTime(env.shell(k), Executes(env.options, cmd))
  {
    hide Executes;
  }

  /** A rule whose action was run, in the state and in the log. */
  lemma TellRun(env: Env, s: State, log: seq<Event>, q: string, cmd: seq<string>, k: nat)
    requires Mirrors(env, s, log) && cmd != [] && Error !in Get(s, q).flags
    requires !Run(env.options, s, q, cmd, env.shell(k)).exited
    ensures
      var wrong := GoesWrong(env.options, cmd, env.shell(k));
      var log1 := log + ([RanAction(q, k, Executes(env.options, cmd))] + if wrong then [MarkedFailed(q)] else []);
      var s1 := Run(env.options, s, q, cmd, env.shell(k));
      && Mirrors(env, s1, log1) && (HasFlag(env, log1, q, Error) <==> HasFlag(env, log, q, Error) || wrong)
      && Get(s1, q).time == ActionTime(env.shell(k), Executes(env.options, cmd))
  {
    hide HasFlag, Mirrors, Run, AfterAction, Executes, ActionTime, Alike, GoesWrong;
    var shelled := Executes(env.options, cmd);
    var s1, s2 := AfterAction(s, q, env.shell(k), shelled), Run(env.options, s, q, cmd, env.shell(k));
    var e := RanAction(q, k, shelled);
    RunAlike(env, s, q, cmd, k);
    MirrorAction(env, s, log, q, k, shelled);
    Appended(env, log, e, q);
    if GoesWrong(env.options, cmd, env.shell(k)) {
      var e2 := MarkedFailed(q);
      assert log + ([e] + [e2]) == log + [e] + [e2];
      MirrorFail(env, s1, log + [e], q);
      Appended(env, log + [e], e2, q);
      AlikeElse(s1, s2, q);
      Unlogged(env, Mark(s1, q, Error), s2, log + [e] + [e2]);
    } else {
      assert log + ([e] + []) == log + [e];
      AlikeSelf(s1, s2, q);
      Unlogged(env, s1, s2, log + [e]);
    }
  }

  lemma AlikeElse(s1: State, s2: State, q: string)
    requires Alike(Get(Mark(s1, q, Error), q), Get(s2, q)) && forall p :: p != q ==> Get(s2, p) == Get(s1, p)
    ensures forall p :: Alike(Get(Mark(s1, q, Error), p), Get(s2, p))
  {
  }

  lemma AlikeSelf(s1: State, s2: State, q: string)
    requires Alike(Get(s1, q), Get(s2, q)) && forall p :: p != q ==> Get(s2, p) == Get(s1, p)
    ensures forall p :: Alike(Get(s1, p), Get(s2, p))
  {
  }

  /** An action that is due is run unless its target had failed by then. */
  ghost predicate RightOutcome(env: Env, log: seq<Event>, a: Act)
    requires a.Block?
  {
    (a.outcome.Ran? ==> !HasFlag(env, log, a.rule, Error)) && (a.outcome.Barred? ==> HasFlag(env, log, a.rule, Error))
  }

  /** What became of the action, in the state and in the log. */
  lemma TellAction(env: Env, s1: State, s2: State, log: seq<Event>, f: Act, k: nat)
    requires Mirrors(env, s1, log) && f.Block? && (f.cmd != [] ==> s1.active > 0)
    requires s2 == Acted(env.options, s1, f.rule, f.cmd, f.high, env.shell(k)) && !s2.exited
    ensures
      var a := Ending(env.options, s1, s2, f);
      var log2 := log + Action(env, a, k);
      && Mirrors(env, s2, log2) && |log2| == ActionEnd(env, a, k, |log|) && ActionTied(env, log2, a, k, |log|)
      && (HasFlag(env, log2, f.rule, Error) <==> HasFlag(env, log, f.rule, Error) || WentWrong(env, a, k))
      && a.before == TimeAfter(env, log, f.rule) && RightOutcome(env, log, a)
    ensures s2.active == s1.active
  {
    RunOnly(env.options, s1, f.rule, f.cmd, f.high, env.shell(k));
    hide HasFlag, Mirrors, TimeAfter, Executes, Due, Judged, Lower, Excused;
    var a := Ending(env.options, s1, s2, f);
    OpenTime(env, s1, log, f.rule);
    OpenError(env, s1, log, f.rule);
    assert a.before == Get(s1, f.rule).time && a.rule == f.rule && a.cmd == f.cmd;
    if a.outcome.Ran? {
      assert s2 == Run(env.options, s1, f.rule, f.cmd, env.shell(k)) && a.outcome.time == Get(s2, f.rule).time;
      hide Run, Acted, Ending, MirrorAt;
      TellRun(env, s1, log, f.rule, f.cmd, k);
    } else {
      assert s2 == s1 && log + [] == log;
    }
  }

  /** The event of a target that is not there and not excused. */
  ghost function Verdict(env: Env, log: seq<Event>, r: string): seq<Event> {
    if !HasFlag(env, log, r, Error) && !IsExcused(env, log, r) then [MarkedFailed(r)] else []
  }

  lemma TellJudged(env: Env, s: State, log: seq<Event>, r: string)
    requires Mirrors(env, s, log) && !Judged(env.options, s, r).exited
    ensures
      var s1 := Judged(env.options, s, r);
      && Mirrors(env, s1, log + Verdict(env, log, r)) && s1.active == s.active
      && (Excused(Get(s1, r).flags) <==> IsExcused(env, log, r))
      && (Error in Get(s1, r).flags <==> HasFlag(env, log, r, Error) || !IsExcused(env, log, r))
  {
    var m, s1 := Mark(s, r, Made), Judged(env.options, s, r);
    assert MirrorAt(env, s, log, r);
    assert Excused(Get(s1, r).flags) <==> IsExcused(env, log, r);
    assert Error in Get(s1, r).flags <==> HasFlag(env, log, r, Error) || !IsExcused(env, log, r);
    assert Verdict(env, log, r) != [] ==> s1.rules == Mark(m, r, Error).rules;
    assert Verdict(env, log, r) == [] ==> s1 == m;
    hide Mirrors, MirrorAt, HasFlag, IsExcused, Excused, Judged;
    Unlogged(env, s, m, log);
    if Verdict(env, log, r) == [] {
      assert log + [] == log;
    } else {
      MirrorFail(env, m, log, r);
      Unlogged(env, Mark(m, r, Error), s1, log + [MarkedFailed(r)]);
    }
  }

  /** The block ends. */
  lemma TellClose(env: Env, s: State, log: seq<Event>, making: set<string>, r: string, z: nat)
    requires Mirrors(env, s, log) && Counts(env, s, making + {r}) && r !in making
    ensures Mirrors(env, Close(s, r, z), log + [Finished(r, z)]) && Counts(env, Close(s, r, z), making)
  {
    hide HasFlag, TimeAfter, Lower;
    assert MirrorAt(env, s, log, r);
    ActiveIsTarget(env, s, log, r);
    OneMoreTarget(making, env.targets, r);
    MirrorClose(env, s, log, r, z);
  }

  lemma SameSeen(acts: seq<Act>, g: Act, a: Act)
    requires g.Block? && a.Block? && a.looks == g.looks
    ensures SawFailed(acts, a) <==> SawFailed(acts, g)
  {
    assert forall i: nat, b: nat :: SeesAt(a, i, b) <==> SeesAt(g, i, b);
  }

  lemma SameBefore(env: Env, log: seq<Event>, more: seq<Event>, f: Act, t: Tie, g: Act, t': Tie)
    requires log <= more && t.start <= |log| && g.rule == f.rule && t'.start == t.start
    ensures HadFailed(env, more, g, t') <==> HadFailed(env, log, f, t)
  {
    SameFront(log, more, t.start);
  }

  lemma DoneTiedEnd(env: Env, log: seq<Event>, a: Act, t: Tie, k: nat, log2: seq<Event>, log3: seq<Event>,
                    log4: seq<Event>)
    requires a.Block? && (a.outcome.Ran? ==> a.cmd != [])
    requires log2 == log + Action(env, a, k) && log3 == log2 + Verdict(env, log2, a.rule)
    requires log4 == log3 + [Finished(a.rule, a.ends)] && t.finish == |log4|
    requires |log2| == ActionEnd(env, a, k, |log|) && ActionTied(env, log2, a, k, |log|)
    requires a.before == TimeAfter(env, log, a.rule) && (a.excused <==> IsExcused(env, log2, a.rule))
    ensures DoneTied(env, log4, a, t, k, |log|)
  {
    hide HasFlag, TimeAfter, IsExcused, WentWrong, ActionEnd, Executes;
    assert log4[..|log|] == log && log4[..|log2|] == log2 && log4[|log3|] == Finished(a.rule, a.ends);
    assert log2 <= log4;
  }

  lemma StepsStay(env: Env, acts: seq<Act>, ties: seq<Tie>, log: seq<Event>, f: Act, t: Tie)
    requires f.Block? && |f.track| == |f.looks| == |t.whens|
    requires forall i :: 0 <= i < |f.track| ==> f.track[i] < |env.lines| && Step(env, acts, ties, log, f, t, i)
    ensures Steps(env, acts, ties, log, f, t)
  {
    hide Step;
  }

  /** The record of a block that was read to its done line is tied. */
  lemma TiedEnd(env: Env, acts: seq<Act>, l: Logged, g: Act, t: Tie, a: Act, log2: seq<Event>, log3: seq<Event>,
                log4: seq<Event>, k: nat) returns (t4: Tie)
    requires Tells(env, acts, l, g, t) && |g.track| > 0 && k == g.track[|g.track| - 1] && |acts| == |l.ties|
    requires a.Block? && !a.outcome.Unfinished?
    requires a == g.(before := a.before, outcome := a.outcome, excused := a.excused, ends := a.ends, failed := a.failed)
    requires a.outcome.Ran? ==> a.cmd != []
    requires log2 == l.log + Action(env, a, k) && log3 == log2 + Verdict(env, log2, a.rule)
    requires log4 == log3 + [Finished(a.rule, a.ends)]
    requires |log2| == ActionEnd(env, a, k, |l.log|) && ActionTied(env, log2, a, k, |l.log|)
    requires HasFlag(env, log2, a.rule, Error) <==> HasFlag(env, l.log, a.rule, Error) || WentWrong(env, a, k)
    requires a.before == TimeAfter(env, l.log, a.rule) && (a.excused <==> IsExcused(env, log2, a.rule))
    requires RightOutcome(env, l.log, a)
    requires a.failed <==> HasFlag(env, log2, a.rule, Error) || !a.excused
    ensures t4 == t.(finish := |log4|) && l.log <= log4 && Tied(env, acts, l.ties, log4, a, t4)
  {
    t4 := t.(finish := |log4|);
    hide HasFlag, TimeAfter, Step, IsExcused, WentWrong, SawFailed, DoneTied, ActionEnd, ActionTied, Action, Verdict,
      HadFailed, Steps, Head;
    DoneTiedEnd(env, l.log, a, t4, k, log2, log3, log4);
    HeadLater(env, l.log, g, t, log4, a, t4);
    StepsLater(env, acts, l.ties, l.log, g, t, acts, l.ties, log4, a, t4);
    StepsStay(env, acts, l.ties, log4, a, t4);
    SameBefore(env, l.log, log4, g, t, a, t4);
    SameSeen(acts, g, a);
  }

  /** The record that a done line makes. */
  lemma EndShape(o: Options, s: State, f: Act, q: string, attrs: set<Flag>, s1: State, s2: State)
    requires f.Block? && s1 == DoneRead(s, f.rule, q, attrs)
    ensures
      var a, g := Ending(o, s1, s2, f), Read(f, Nothing, f.high, f.stop + 1, f.cmd);
      var flags := Get(Judged(o, s2, f.rule), f.rule).flags;
      && a.Block? && a == g.(before := a.before, outcome := a.outcome, excused := a.excused, ends := a.ends,
         failed := a.failed)
      && |g.track| == |f.track| + 1 && g.track[|f.track|] == f.stop && a.rule == f.rule && !a.outcome.Unfinished?
      && (a.outcome.Ran? ==> a.cmd != []) && a.excused == Excused(flags) && (a.failed <==> Error in flags)
      && s1.active == s.active
  {
    hide Judged, Due, Excused, Allowed;
  }

  /** A block ends at its done line, told. */
  lemma TellDone(env: Env, s: State, acts: seq<Act>, l: Logged, f: Act, t: Tie, making: set<string>, q: string,
                 attrs: set<Flag>, s1: State, s2: State) returns (l4: Logged)
    requires f.Block? && f.rule !in making && Told(env, s, acts, l, making + {f.rule}) && Tells(env, acts, l, f, t)
    requires (forall i: nat, b: nat :: SeesAt(f, i, b) ==> b < |acts|) && (f.cmd != [] ==> s.active > 0)
    requires f.stop == s.pos < |env.lines| && env.lines[s.pos] == Done(q, attrs)
    requires s1 == DoneRead(s, f.rule, q, attrs)
    requires s2 == Acted(env.options, s1, f.rule, f.cmd, f.high, env.shell(s.pos))
    requires !s2.exited && !Judged(env.options, s2, f.rule).exited
    ensures
      var a := Ending(env.options, s1, s2, f);
      && Told(env, Close(Judged(env.options, s2, f.rule), f.rule, a.ends), acts + [a], l4, making)
      && l.log < l4.log && l4.ties == l.ties + [l4.ties[|l.ties|]]
      && l4.ties[|l.ties|].start == t.start && l4.ties[|l.ties|].finish == |l4.log|
  {
    hide HasFlag, Mirrors, AllTied, TimeAfter, DoneRead, Acted, Judged, Ending, Read, Tied, ActionTied, ActionEnd,
      Excused, IsExcused, WentWrong, Close, Telling, Due, Get;
    var o, r, k := env.options, f.rule, s.pos;
    var a, s3 := Ending(o, s1, s2, f), Judged(o, s2, f.rule);
    var g := Read(f, Nothing, f.high, f.stop + 1, f.cmd);
    EndShape(o, s, f, q, attrs, s1, s2);
    var l1 := TellDoneRead(env, s, acts, l, f, t, making + {r}, q, attrs, g);
    var log2 := l1.log + Action(env, a, k);
    TellAction(env, s1, s2, l1.log, f, k);
    var log3 := log2 + Verdict(env, log2, r);
    TellJudged(env, s2, log2, r);
    var log4 := log3 + [Finished(r, a.ends)];
    TellClose(env, s3, log3, making, r, a.ends);
    var t4 := TiedEnd(env, acts, l1, g, t.(whens := t.whens + [|l1.log|]), a, log2, log3, log4, k);
    AllTiedLater(env, acts, l.ties, l1.log, log4);
    AllTiedMore(env, acts, l.ties, log4, a, t4);
    l4 := Logged(l.ties + [t4], log4);
  }

  /** A block the input of which ran out, told. */
  lemma TellUnread(env: Env, s: State, acts: seq<Act>, l: Logged, f: Act, t: Tie, making: set<string>)
    returns (l1: Logged)
    requires f.Block? && f.rule !in making && Told(env, s, acts, l, making + {f.rule}) && Tells(env, acts, l, f, t)
    ensures
      var a := Unread(s, f);
      && Told(env, Close(s, f.rule, a.ends), acts + [a], l1, making)
      && l.log < l1.log && l1.ties == l.ties + [l1.ties[|l.ties|]]
      && l1.ties[|l.ties|].start == t.start && l1.ties[|l.ties|].finish == |l1.log|
  {
    var a := Unread(s, f);
    var log1 := l.log + [Finished(a.rule, a.ends)];
    var t1 := t.(finish := |log1|);
    assert |acts| == |l.ties|;
    assert Error in Get(s, f.rule).flags <==> HasFlag(env, l.log, f.rule, Error) by {
      assert MirrorAt(env, s, l.log, f.rule);
      assert Error != Made;
    }
    hide HasFlag, TimeAfter, Mirrors, AllTied, SawFailed, Step, Close;
    TellClose(env, s, l.log, making, f.rule, a.ends);
    HeadLater(env, l.log, f, t, log1, a, t1);
    StepsLater(env, acts, l.ties, l.log, f, t, acts, l.ties, log1, a, t1);
    SameFront(l.log, log1, t.start);
    SameSeen(acts, f, a);
    assert Tied(env, acts, l.ties, log1, a, t1);
    AllTiedLater(env, acts, l.ties, l.log, log1);
    AllTiedMore(env, acts, l.ties, log1, a, t1);
    l1 := Logged(l.ties + [t1], log1);
  }
}
