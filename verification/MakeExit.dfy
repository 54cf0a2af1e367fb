/**
 How a run of mamake that is not under -k is cut short (src/cmd/INIT/mamake.c:341-357, 1180-1277, 1615-1637): at
 a done line, by an action that goes wrong or a target that is not there, and in no other way.
 */
module MakeExit {
  import opened MakeLog
  import opened MakeTrace
  import opened MakeSteps
  import opened MakeLines
  import opened MakeMirror
  import opened MakeTies
  import opened MakeEnds
  import opened MakeRun
  import opened MakeClaims

  /** The action of the block is run, when the log is at its done line. */
  ghost predicate Runs(env: Env, log: seq<Event>, f: Act)
    requires f.Block?
  {
    f.cmd != [] && Due(env.options, TimeAfter(env, log, f.rule), f.high) && !HasFlag(env, log, f.rule, Error)
  }

  /** The log behind an action that did not go wrong. */
  ghost function LogRun(env: Env, log: seq<Event>, f: Act): seq<Event>
    requires f.Block?
  {
    if Runs(env, log, f) then log + [RanAction(f.rule, f.stop, Executes(env.options, f.cmd))] else log
  }

  /** The action goes wrong and that is not ignored, or the target is not there then and not excused. */
  ghost predicate Fatal(env: Env, log: seq<Event>, f: Act)
    requires f.Block?
  {
    || (Runs(env, log, f) && GoesWrong(env.options, f.cmd, env.shell(f.stop)))
    || !IsExcused(env, LogRun(env, log, f), f.rule)
  }

  /** The block was read up to its done line, which is fatal. */
  ghost predicate CutShort(env: Env, acts: seq<Act>, l: Logged, f: Act, tie: Tie) {
    && Partial(env.lines, acts, f) && Tells(env, acts, l, f, tie)
    && f.stop < |env.lines| && env.lines[f.stop].Done?
    && Fatal(env, l.log + [Attributed(f.rule, f.stop)], f)
  }

  /** Some block was cut short. */
  ghost predicate Broken(env: Env, acts: seq<Act>, l: Logged) {
    exists f, tie :: CutShort(env, acts, l, f, tie)
  }

  lemma RunFatal(env: Env, s: State, log: seq<Event>, f: Act)
    requires Mirrors(env, s, log) && f.Block? && f.cmd != [] && !s.exited
    requires Due(env.options, Get(s, f.rule).time, f.high)
    requires Run(env.options, s, f.rule, f.cmd, env.shell(f.stop)).exited
    ensures Fatal(env, log, f)
  {
    OpenTime(env, s, log, f.rule);
    OpenError(env, s, log, f.rule);
    hide HasFlag, TimeAfter, Executes, Mirrors, Due, IsRecursive, IsExcused;
  }

  lemma JudgedFatal(env: Env, s1: State, s2: State, log: seq<Event>, f: Act)
    requires Mirrors(env, s1, log) && f.Block? && (f.cmd != [] ==> s1.active > 0) && !s1.exited
    requires s2 == Acted(env.options, s1, f.rule, f.cmd, f.high, env.shell(f.stop)) && !s2.exited
    requires Judged(env.options, s2, f.rule).exited
    ensures Fatal(env, log, f)
  {
    TellAction(env, s1, s2, log, f, f.stop);
    var a := Ending(env.options, s1, s2, f);
    var log2 := log + Action(env, a, f.stop);
    assert log2 == LogRun(env, log, f) by {
      OpenTime(env, s1, log, f.rule);
      OpenError(env, s1, log, f.rule);
      assert a.outcome.Ran? <==> Runs(env, log, f);
      NotWrong(env, s1, s2, f);
      assert log + [] == log;
    }
    hide Acted, Action, LogRun, Ending, Mirrors, Runs;
    NotExcused(env, s2, log2, f.rule);
  }

  /** A run that was not cut short did not go wrong. */
  lemma NotWrong(env: Env, s1: State, s2: State, f: Act)
    requires f.Block? && (f.cmd != [] ==> s1.active > 0) && !s1.exited
    requires s2 == Acted(env.options, s1, f.rule, f.cmd, f.high, env.shell(f.stop)) && !s2.exited
    requires !env.options.keepgoing
    ensures !WentWrong(env, Ending(env.options, s1, s2, f), f.stop)
  {
    hide Executes, Due, IsRecursive, Judged;
  }

  lemma NotExcused(env: Env, s: State, log: seq<Event>, r: string)
    requires Mirrors(env, s, log) && !s.exited && Judged(env.options, s, r).exited
    ensures !IsExcused(env, log, r)
  {
    assert MirrorAt(env, s, log, r);
    hide HasFlag, TimeAfter, Lower;
  }

  /** An exit at the done line. */
  lemma Exits(env: Env, s: State, t: Trace, l: Logged, f: Act, tie: Tie, making: set<string>, q: string,
              attrs: set<Flag>, s1: State, s2: State)
    requires Within(env.lines, s, t, f) && !s.exited
    requires Told(env, s, t.acts, l, making + {f.rule}) && Tells(env, t.acts, l, f, tie)
    requires f.cmd != [] ==> s.active > 0
    requires f.stop == s.pos < |env.lines| && env.lines[s.pos] == Done(q, attrs) && s1 == DoneRead(s, f.rule, q, attrs)
    requires s2 == Acted(env.options, s1, f.rule, f.cmd, f.high, env.shell(s.pos))
    ensures s2.exited || Judged(env.options, s2, f.rule).exited ==> !env.options.keepgoing && Broken(env, t.acts, l)
  {
    hide Mirrors, AllTied, Telling, DoneRead, Fatal, Judged, Executes;
    assert Partial(env.lines, t.acts, f);
    SeenAll(env.lines, s, t, f);
    var g := Read(f, Nothing, f.high, f.stop + 1, f.cmd);
    hide Read, Within, Partial;
    var l1 := TellDoneRead(env, s, t.acts, l, f, tie, making + {f.rule}, q, attrs, g);
    SameActive(s, f.rule, q, attrs);
    ExitsOnly(env.options, s1, f.rule, f.cmd, f.high, env.shell(s.pos));
    if s2.exited {
      RunFatal(env, s1, l1.log, f);
      assert CutShort(env, t.acts, l, f, tie);
    } else if Judged(env.options, s2, f.rule).exited {
      JudgedFatal(env, s1, s2, l1.log, f);
      assert CutShort(env, t.acts, l, f, tie);
    }
  }

  // A run that was not cut short.

  /** A prefix of the log gives no flag that the log does not. */
  lemma FlagLater(env: Env, log: seq<Event>, n: nat, q: string, flag: Flag)
    requires n <= |log| && HasFlag(env, log[..n], q, flag)
    ensures HasFlag(env, log, q, flag)
  {
    hide Gives;
    if !(flag == Active && q in env.targets) {
      var i :| 0 <= i < n && log[..n][i].rule == q && Gives(env, log[..n][i], flag);
      assert log[i] == log[..n][i];
    }
  }

  lemma FailedThere(env: Env, log: seq<Event>, f: Act, t: Tie, k: nat, decided: nat)
    requires f.Block? && DoneTied(env, log, f, t, k, decided) && (WentWrong(env, f, k) || !f.excused)
    ensures HasFlag(env, log, f.rule, Error)
  {
    hide WentWrong, IsExcused, TimeAfter;
    var e := ActionEnd(env, f, k, decided);
    if WentWrong(env, f, k) {
      assert Gives(env, log[decided + 1], Error);
    } else if HasFlag(env, log[..e], f.rule, Error) {
      FlagLater(env, log, e, f.rule, Error);
    } else {
      assert Gives(env, log[e], Error);
    }
  }

  /** The target of a block that went wrong has failed. */
  lemma CulpritMarks(env: Env, acts: seq<Act>, ties: seq<Tie>, log: seq<Event>, f: Act, t: Tie)
    requires Tied(env, acts, ties, log, f, t) && Fair(env.options, env.lines, acts, f) && Culprit(env, f)
    ensures HasFlag(env, log, f.rule, Error)
  {
    hide Fair, DoneTied, Steps, Head, HadFailed, SawFailed, HasFlag, WentWrong;
    StopsBehindDone(env, acts, f);
    FailedThere(env, log, f, t, f.stop - 1, Clock(f, t, |t.whens|));
  }

  /** A run that is not under -k and not cut short has no block that went wrong. */
  lemma AllRight(env: Env, s: State, t: Trace, l: Logged)
    requires World(env.options, env.lines, s, t, {}) && Told(env, s, t.acts, l, {}) && !env.options.keepgoing
    ensures forall a: nat :: a < |t.acts| ==> !Culprit(env, t.acts[a])
  {
    hide Culprit, Known, Busy, AllFair, AllTied, HasFlag, Mirrors, Fair, Tied;
    forall a: nat | a < |t.acts| ensures !Culprit(env, t.acts[a]) {
      OpenError(env, s, l.log, t.acts[a].rule);
      RecordIs(env, t.acts, l.ties, l.log, a);
      if Culprit(env, t.acts[a]) {
        var n := l.ties[a].finish;
        CulpritMarks(env, t.acts[..a], l.ties[..a], l.log[..n], t.acts[a], l.ties[a]);
        FlagLater(env, l.log, n, t.acts[a].rule, Error);
      }
    }
  }
}
