/**
 The exit status of mamake (src/cmd/INIT/mamake.c:341-357, 1255, 1615-1637, 1722-1731, 2364-2374): the errors
 that were counted, and what the walk that verifies the targets adds to them.
 */
module MakeStatus {
  import opened MakeLog
  import opened MakeTrace
  import opened MakeSteps
  import opened MakeLines
  import opened MakeClaims
  import opened Wrappers

  /** The done line that ended the block is for another rule. */
  predicate Improper(lines: seq<Line>, f: Act) {
    && f.Block? && !f.outcome.Unfinished? && 0 < f.stop <= |lines|
    && lines[f.stop - 1].Done? && lines[f.stop - 1].rule != f.rule
  }

  /** The block went wrong, or its done line is improper. */
  ghost predicate Faulty(env: Env, f: Act) {
    Culprit(env, f) || Improper(env.lines, f)
  }

  /** The record is of a block of q that was read to its end. */
  predicate MakesRule(f: Act, q: string) {
    f.Block? && f.rule == q && !f.outcome.Unfinished?
  }

  /** The action of the block was a recursive run. */
  predicate Recurs(f: Act) {
    f.Block? && f.outcome.Ran? && IsRecursive(f.cmd)
  }

  ghost predicate AnyFaulty(env: Env, acts: seq<Act>) {
    exists a :: 0 <= a < |acts| && Faulty(env, acts[a])
  }

  ghost predicate AnyMakes(acts: seq<Act>, q: string) {
    exists a :: 0 <= a < |acts| && MakesRule(acts[a], q)
  }

  ghost predicate AnyRecurs(acts: seq<Act>) {
    exists a :: 0 <= a < |acts| && Recurs(acts[a])
  }

  predicate HasError(s: State, q: string) {
    Error in Get(s, q).flags
  }

  predicate IsMade(s: State, q: string) {
    Made in Get(s, q).flags
  }

  ghost predicate AnyError(s: State) {
    exists q :: HasError(s, q)
  }

  /** What is counted and flagged in the state is what the records say. */
  ghost predicate Status(env: Env, s: State, acts: seq<Act>) {
    && (s.errors > 0 <==> AnyFaulty(env, acts)) && (s.verified <==> AnyRecurs(acts))
    && (AnyError(s) ==> s.errors > 0)
    && forall q :: IsMade(s, q) <==> AnyMakes(acts, q)
  }

  /** Nothing is counted, and no failure is new. */
  ghost predicate Quiet(s: State, s1: State) {
    && s1.errors == s.errors && s1.verified == s.verified
    && (AnyError(s1) ==> AnyError(s))
    && forall q :: IsMade(s1, q) <==> IsMade(s, q)
  }

  lemma StatusQuiet(env: Env, s: State, acts: seq<Act>, s1: State)
    requires Status(env, s, acts) && Quiet(s, s1)
    ensures Status(env, s1, acts)
  {
    hide AnyFaulty, AnyMakes, AnyRecurs, Get;
  }

  /** One more record of a file or of a block that was not read to its end. */
  lemma StatusIdle(env: Env, s: State, acts: seq<Act>, a: Act)
    requires Status(env, s, acts) && (a.Block? ==> a.outcome.Unfinished?)
    ensures Status(env, s, acts + [a])
  {
    assert !Faulty(env, a) && !Recurs(a) && forall q :: !MakesRule(a, q);
    hide AnyFaulty, AnyMakes, AnyRecurs, AnyError, IsMade, Faulty, Recurs, MakesRule;
    OneMore(env, acts, a);
  }

  lemma OneMore(env: Env, acts: seq<Act>, a: Act)
    ensures AnyFaulty(env, acts + [a]) <==> AnyFaulty(env, acts) || Faulty(env, a)
    ensures AnyRecurs(acts + [a]) <==> AnyRecurs(acts) || Recurs(a)
    ensures forall q :: AnyMakes(acts + [a], q) <==> AnyMakes(acts, q) || MakesRule(a, q)
  {
    hide Faulty, Recurs, MakesRule;
    var more := acts + [a];
    assert more[|acts|] == a && forall i :: 0 <= i < |acts| ==> more[i] == acts[i];
  }

  /** A change that gives no rule the flags that matter here. */
  lemma QuietIf(s: State, s1: State)
    requires s1.errors == s.errors && s1.verified == s.verified
    requires forall q :: HasError(s1, q) ==> HasError(s, q)
    requires forall q :: IsMade(s1, q) <==> IsMade(s, q)
    ensures Quiet(s, s1)
  {
    hide HasError, IsMade;
  }

  lemma QuietGive(s: State, q: string, attrs: set<Flag>)
    ensures Quiet(s, Give(s, q, attrs))
  {
    hide Allowed;
    QuietIf(s, Give(s, q, attrs));
  }

  lemma QuietBound(s: State, q: string, found: Option<Found>)
    ensures Quiet(s, Bound(s, q, found))
  {
    QuietIf(s, Bound(s, q, found));
  }

  lemma QuietStain(s: State, r: string, q: string)
    ensures Quiet(s, Stain(s, r, q))
  {
    if HasError(s, q) {
      assert AnyError(s);
    } else {
      QuietIf(s, Stain(s, r, q));
    }
  }

  lemma QuietGenerates(s: State, r: string)
    ensures Quiet(s, Generates(s, r))
  {
    QuietIf(s, Generates(s, r));
  }

  lemma QuietBegin(s: State, r: string, found: Option<Found>)
    ensures Quiet(s, Begin(s, r, found))
  {
    QuietIf(s, Open(s, r));
    QuietBound(Open(s, r), r, found);
    QuietTwice(s, Open(s, r), Begin(s, r, found));
  }

  lemma QuietClose(s: State, r: string, z: nat)
    ensures Quiet(s, Close(s, r, z))
  {
    QuietIf(s, Close(s, r, z));
  }

  lemma QuietPos(s: State, pos: nat)
    ensures Quiet(s, s.(pos := pos))
  {
    QuietIf(s, s.(pos := pos));
  }

  lemma QuietTwice(s: State, s1: State, s2: State)
    requires Quiet(s, s1) && (s1 == s2 || Quiet(s1, s2))
    ensures Quiet(s, s2)
  {
    hide AnyError, IsMade;
  }

  // The done line.

  /** The rules other than r are as they were. */
  ghost predicate Others(s: State, s1: State, r: string) {
    forall p :: p != r ==> Get(s1, p) == Get(s, p)
  }

  lemma ReadCounts(s: State, r: string, q: string, attrs: set<Flag>)
    ensures var s1 := DoneRead(s, r, q, attrs);
      && s1.errors == (if q != r then 1 else s.errors) && s1.verified == s.verified && s1.exited == s.exited
      && (HasError(s1, r) <==> HasError(s, r)) && (IsMade(s1, r) <==> IsMade(s, r)) && Others(s, s1, r)
  {
    hide Allowed;
  }

  lemma RunCounts(o: Options, s: State, r: string, cmd: seq<string>, shell: Result)
    requires cmd != [] && !HasError(s, r) && !s.exited && !Run(o, s, r, cmd, shell).exited
    ensures var s1 := Run(o, s, r, cmd, shell);
      && s1.errors == s.errors + (if GoesWrong(o, cmd, shell) then 1 else 0)
      && (s1.verified <==> s.verified || IsRecursive(cmd))
      && (HasError(s1, r) <==> GoesWrong(o, cmd, shell)) && (IsMade(s1, r) <==> IsMade(s, r)) && Others(s, s1, r)
  {
    hide Executes, IsRecursive;
  }

  lemma JudgedCounts(o: Options, s: State, r: string)
    requires !s.exited && !Judged(o, s, r).exited
    ensures var s1 := Judged(o, s, r);
      var excused := Excused(Get(s1, r).flags);
      && s1.errors == s.errors + (if !HasError(s, r) && !excused then 1 else 0) && s1.verified == s.verified
      && (HasError(s1, r) <==> HasError(s, r) || !excused) && IsMade(s1, r) && Others(s, s1, r)
  {
  }

  /** What a done line counts and flags. */
  lemma DoneCounts(o: Options, s: State, r: string, q: string, attrs: set<Flag>, f: Act, shell: Result, s1: State,
                   s2: State)
    requires f.Block? && f.rule == r && s1 == DoneRead(s, r, q, attrs) && !s.exited
    requires s2 == Acted(o, s1, r, f.cmd, f.high, shell) && (f.cmd != [] ==> s1.active > 0)
    requires !s2.exited && !Judged(o, s2, r).exited
    ensures var a, s3 := Ending(o, s1, s2, f), Judged(o, s2, r);
      && a.Block? && a.cmd == f.cmd && (a.outcome.Ran? ==> f.cmd != [])
      && var wrong := a.outcome.Ran? && GoesWrong(o, f.cmd, shell);
      && (s3.errors > 0 <==> q != r || s.errors > 0 || wrong || (!a.excused && !HasError(s, r)))
      && (s3.verified <==> s.verified || (a.outcome.Ran? && IsRecursive(f.cmd)))
      && (HasError(s3, r) <==> HasError(s, r) || wrong || !a.excused) && IsMade(s3, r) && Others(s, s3, r)
  {
    ReadCounts(s, r, q, attrs);
    JudgedCounts(o, s2, r);
    var a := Ending(o, s1, s2, f);
    hide Due, Judged, DoneRead, Excused, IsRecursive, GoesWrong;
    if a.outcome.Ran? {
      assert s2 == Run(o, s1, r, f.cmd, shell) && !HasError(s1, r);
      RunCounts(o, s1, r, f.cmd, shell);
    } else {
      assert s2 == s1;
    }
  }

  /** The status after a done line. */
  lemma StatusDone(env: Env, s: State, acts: seq<Act>, q: string, attrs: set<Flag>, f: Act, s1: State, s2: State)
    requires Status(env, s, acts) && f.Block? && f.stop == s.pos < |env.lines| && env.lines[s.pos] == Done(q, attrs)
    requires s1 == DoneRead(s, f.rule, q, attrs) && !s.exited && (f.cmd != [] ==> s1.active > 0)
    requires s2 == Acted(env.options, s1, f.rule, f.cmd, f.high, env.shell(s.pos))
    requires !s2.exited && !Judged(env.options, s2, f.rule).exited
    ensures var a := Ending(env.options, s1, s2, f);
      Status(env, Close(Judged(env.options, s2, f.rule), f.rule, a.ends), acts + [a])
  {
    var a, s3 := Ending(env.options, s1, s2, f), Judged(env.options, s2, f.rule);
    DoneCounts(env.options, s, f.rule, q, attrs, f, env.shell(s.pos), s1, s2);
    OneMore(env, acts, a);
    assert a.rule == f.rule && a.stop == s.pos + 1 && !a.outcome.Unfinished?;
    hide Ending, Judged, DoneRead, Acted, Due;
    assert Improper(env.lines, a) <==> q != f.rule;
    assert Recurs(a) <==> a.outcome.Ran? && IsRecursive(f.cmd);
    assert Faulty(env, a) <==>
      q != f.rule || !a.excused || (a.outcome.Ran? && GoesWrong(env.options, f.cmd, env.shell(s.pos)));
    assert forall p :: MakesRule(a, p) <==> p == f.rule;
    assert HasError(s, f.rule) ==> AnyError(s);
    StatusOf(env, s, acts, a, s3);
    QuietClose(s3, f.rule, a.ends);
    StatusQuiet(env, s3, acts + [a], Close(s3, f.rule, a.ends));
  }

  lemma StatusOf(env: Env, s: State, acts: seq<Act>, a: Act, s3: State)
    requires Status(env, s, acts) && Others(s, s3, a.rule) && IsMade(s3, a.rule)
    requires s3.errors > 0 <==> s.errors > 0 || Faulty(env, a)
    requires s3.verified <==> s.verified || Recurs(a)
    requires HasError(s3, a.rule) ==> s3.errors > 0
    requires forall p :: MakesRule(a, p) <==> p == a.rule
    ensures Status(env, s3, acts + [a])
  {
    OneMore(env, acts, a);
    forall p ensures IsMade(s3, p) <==> AnyMakes(acts + [a], p) {
    }
    if p :| HasError(s3, p) {
      if p != a.rule {
        assert HasError(s, p);
      }
    }
    hide AnyFaulty, AnyRecurs, Faulty, Recurs;
  }

  // Line by line.

  lemma StatusFirst(env: Env, s: State)
    requires s.errors == 0 && !s.verified && forall q :: !HasError(s, q) && !IsMade(s, q)
    ensures Status(env, s, [])
  {
  }

  lemma StatusPos(env: Env, s: State, acts: seq<Act>, pos: nat)
    requires Status(env, s, acts)
    ensures Status(env, s.(pos := pos), acts)
  {
    QuietPos(s, pos);
    StatusQuiet(env, s, acts, s.(pos := pos));
  }

  lemma StatusGive(env: Env, s: State, acts: seq<Act>, pos: nat, q: string, attrs: set<Flag>)
    requires Status(env, s, acts)
    ensures Status(env, Give(s.(pos := pos), q, attrs), acts)
  {
    hide Status, Give;
    StatusPos(env, s, acts, pos);
    QuietGive(s.(pos := pos), q, attrs);
    StatusQuiet(env, s.(pos := pos), acts, Give(s.(pos := pos), q, attrs));
  }

  lemma StatusStain(env: Env, s: State, acts: seq<Act>, r: string, q: string)
    requires Status(env, s, acts)
    ensures Status(env, Stain(s, r, q), acts)
  {
    QuietStain(s, r, q);
    hide Status, Stain;
    StatusQuiet(env, s, acts, Stain(s, r, q));
  }

  lemma StatusOwn(env: Env, s: State, acts: seq<Act>, r: string, pos: nat)
    requires Status(env, s, acts)
    ensures Status(env, s.(pos := pos), acts) && Status(env, Generates(s, r).(pos := pos), acts)
  {
    hide Status, Generates;
    StatusPos(env, s, acts, pos);
    QuietGenerates(s, r);
    StatusQuiet(env, s, acts, Generates(s, r));
    StatusPos(env, Generates(s, r), acts, pos);
  }

  lemma StatusLib(env: Env, s: State, acts: seq<Act>, r: string, q: string, attrs: set<Flag>,
                  found: Option<Found>, a: Act)
    requires Status(env, s, acts) && a.File?
    ensures Status(env, Stain(Bound(Give(s, q, attrs), q, found), r, q), acts + [a])
  {
    hide Status, Bound, Give, Stain;
    QuietGive(s, q, attrs);
    StatusQuiet(env, s, acts, Give(s, q, attrs));
    QuietBound(Give(s, q, attrs), q, found);
    StatusQuiet(env, Give(s, q, attrs), acts, Bound(Give(s, q, attrs), q, found));
    StatusStain(env, Bound(Give(s, q, attrs), q, found), acts, r, q);
    StatusIdle(env, Stain(Bound(Give(s, q, attrs), q, found), r, q), acts, a);
  }

  lemma StatusBegin(env: Env, s: State, acts: seq<Act>, r: string, found: Option<Found>)
    requires Status(env, s, acts)
    ensures Status(env, Begin(s, r, found), acts)
  {
    hide Status, Begin;
    QuietBegin(s, r, found);
    StatusQuiet(env, s, acts, Begin(s, r, found));
  }

  lemma StatusUnread(env: Env, s: State, acts: seq<Act>, f: Act, z: nat)
    requires Status(env, s, acts) && f.Block?
    ensures Status(env, Close(s, f.rule, z), acts + [Unread(s, f)])
  {
    hide Status, Close;
    QuietClose(s, f.rule, z);
    StatusQuiet(env, s, acts, Close(s, f.rule, z));
    StatusIdle(env, Close(s, f.rule, z), acts, Unread(s, f));
  }

  // The end of the run.

  /** The target was not made, and did not fail. */
  predicate Leftover(s: State, q: string) {
    Active in Get(s, q).flags && Error !in Get(s, q).flags && Made !in Get(s, q).flags
  }

  function Leftovers(s: State): set<string> {
    set q | q in s.rules && Leftover(s, q)
  }

  /** A target was named that no block makes. */
  ghost predicate Forgotten(env: Env, acts: seq<Act>) {
    exists q :: q in env.targets && !AnyMakes(acts, q)
  }

  function Failing(s: State, q: string): Rule {
    Get(s, q).(flags := Get(s, q).flags + {Error})
  }

  /** Of the rules that were walked those that are left over have failed, and were counted. */
  ghost predicate Verified(s: State, s1: State, walked: set<string>) {
    && s1 == s.(rules := s1.rules, errors := s.errors + |walked * Leftovers(s)|)
    && forall q :: Get(s1, q) == if q in walked * Leftovers(s) then Failing(s, q) else Get(s, q)
  }

  lemma NoneVerified(s: State)
    ensures Verified(s, s, s.rules.Keys - s.rules.Keys)
  {
    assert s.rules.Keys - s.rules.Keys == {} && {} * Leftovers(s) == {};
  }

  /** Which rules are left over, and how they fail. */
  lemma LeftoversAre(s: State)
    ensures forall q :: q in Leftovers(s) <==>
      Active in Get(s, q).flags && Error !in Get(s, q).flags && Made !in Get(s, q).flags
    ensures forall q :: Failing(s, q) == Get(s, q).(flags := Get(s, q).flags + {Error})
  {
  }

  lemma AllVerified(s: State, s1: State)
    requires Verified(s, s1, s.rules.Keys - {})
    ensures s1 == s.(rules := s1.rules, errors := s.errors + |Leftovers(s)|)
    ensures forall q :: Get(s1, q) == if q in Leftovers(s) then Failing(s, q) else Get(s, q)
  {
    assert (s.rules.Keys - {}) * Leftovers(s) == Leftovers(s);
  }

  lemma WalkedOne(walked: set<string>, left: set<string>, q: string)
    requires q !in walked
    ensures (walked + {q}) * left == if q in left then walked * left + {q} else walked * left
    ensures |(walked + {q}) * left| == |walked * left| + if q in left then 1 else 0
  {
  }

  lemma MarkOne(s: State, q: string)
    ensures var s1 := Mark(s, q, Error).(errors := s.errors + 1);
      && s1 == s.(rules := s1.rules, errors := s.errors + 1)
      && forall p :: Get(s1, p) == if p == q then Failing(s, q) else Get(s, p)
  {
  }

  /** One more rule is walked. */
  lemma OneVerified(s: State, s1: State, walked: set<string>, q: string)
    requires Verified(s, s1, walked) && q in s.rules && q !in walked
    ensures Leftover(s1, q) <==> Leftover(s, q)
    ensures Verified(s, if Leftover(s, q) then Mark(s1, q, Error).(errors := s1.errors + 1) else s1, walked + {q})
  {
    hide Get, Mark, Leftovers;
    assert Get(s1, q) == Get(s, q);
    LeftIn(s, q);
    hide Leftover;
    WalkedOne(walked, Leftovers(s), q);
    MarkOne(s1, q);
  }

  lemma LeftIn(s: State, q: string)
    requires q in s.rules
    ensures q in Leftovers(s) <==> Leftover(s, q)
  {
  }

  /** What makes a run that reads the whole Mamfile end with a status other than 0. */
  ghost predicate Amiss(env: Env, acts: seq<Act>) {
    AnyFaulty(env, acts) || (!AnyRecurs(acts) && Forgotten(env, acts))
  }

  /** The targets that are left over. */
  lemma LeftoverIf(env: Env, s: State, acts: seq<Act>)
    requires Status(env, s, acts) && s.errors == 0
    requires forall q :: Active in Get(s, q).flags <==> q in env.targets
    ensures Leftovers(s) != {} <==> Forgotten(env, acts)
  {
    hide AnyFaulty, AnyRecurs;
    forall q ensures Leftover(s, q) <==> q in env.targets && !AnyMakes(acts, q) {
      assert IsMade(s, q) <==> AnyMakes(acts, q);
      assert !HasError(s, q);
    }
    if q :| q in env.targets && !AnyMakes(acts, q) {
      assert q in Leftovers(s);
    }
    if q :| q in Leftovers(s) {
      assert Leftover(s, q);
    }
  }

  /** The errors that are counted in the end. */
  lemma ErrorsAre(env: Env, s: State, acts: seq<Act>, n: nat)
    requires Status(env, s, acts) && (s.active == 0 <==> env.targets != {})
    requires forall q :: Active in Get(s, q).flags <==> q in env.targets
    requires n == s.errors + if s.active == 0 && !s.verified then |Leftovers(s)| else 0
    ensures n > 0 <==> Amiss(env, acts)
  {
    hide AnyFaulty, AnyRecurs, AnyMakes, AnyError, Leftovers;
    if s.errors == 0 {
      LeftoverIf(env, s, acts);
    }
  }
}
