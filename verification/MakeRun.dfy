/**
 What each line of a block does to the state of mamake, the trace and the log of the run, all at once
 (src/cmd/INIT/mamake.c:1548-1717).
 */
module MakeRun {
  import opened MakeLog
  import opened MakeTrace
  import opened MakeSteps
  import opened MakeLines
  import opened MakeMirror
  import opened MakeTies
  import opened MakeEnds
  import opened Wrappers

  lemma AtBegin(o: Options, lines: seq<Line>, s: State, t: Trace, making: set<string>, r: string, found: Option<Found>)
    requires World(o, lines, s, t, making)
    ensures Begin(s, r, found).pos == s.pos <= |lines|
      && (r == "" ==> Get(Begin(s, r, found), r).time == Get(s, r).time)
    ensures var s1 := Begin(s, r, found);
      var f := Beginning(s1, t, making, r);
      && f.Block? && f.rule == r && f.making == making + {r} && f.from == |t.acts| && f.at == s1.pos && f.stop == s1.pos
      && f.high == Get(s1, r).time && f.cmd == []
  {
  }

  lemma SameActive(s: State, r: string, q: string, attrs: set<Flag>)
    ensures DoneRead(s, r, q, attrs).active == s.active && DoneRead(s, r, q, attrs).exited == s.exited
  {
  }

  lemma Lasts(o: Options, lines: seq<Line>, s0: State, t0: Trace, s: State, t: Trace, making: set<string>,
              up: set<string>)
    requires World(o, lines, s, t, up) && Since(s0, t0, s, t, making)
    ensures AllFair(o, lines, t.acts) && t0.acts <= t.acts && !s.exited
  {
  }

  lemma ExitsOnly(o: Options, s: State, r: string, cmd: seq<string>, z: nat, shell: Result)
    requires !s.exited
    ensures var s2 := Acted(o, s, r, cmd, z, shell); s2.exited || Judged(o, s2, r).exited ==> !o.keepgoing
  {
    hide Due, Executes, IsRecursive, Excused;
  }

  /** What the reader of a block goes by. */
  lemma Facts(o: Options, lines: seq<Line>, s: State, t: Trace, f: Act, q: string)
    requires f.Block? && World(o, lines, s, t, f.making) && Within(lines, s, t, f)
    ensures !s.exited && AllFair(o, lines, t.acts) && f.from <= |t.acts| && f.active == (s.active > 0)
      && (f.cmd != [] ==> s.active > 0)
    ensures Get(s, q).making > 0 <==> q in f.making
  {
  }

  /** The next line changes nothing by itself. */
  lemma NextLine(o: Options, lines: seq<Line>, s: State, t: Trace, f: Act, making: set<string>)
    requires f.Block? && f.making == making + {f.rule} && f.rule !in making
    requires World(o, lines, s, t, f.making) && Within(lines, s, t, f) && s.pos < |lines|
    ensures var s1 := s.(pos := s.pos + 1);
      World(o, lines, s1, t, f.making) && Within(lines, s1, t, f) && Since(s, t, s1, t, making)
  {
    var s1 := s.(pos := s.pos + 1);
    assert Only(s, s1, f.rule) && s1.pos <= |lines| && !s1.exited;
    assert !o.keepgoing ==> Error !in Get(s1, f.rule).flags;
    OwnChange(o, lines, s, s1, t, making, f.rule);
  }

  /** What a done line does leaves the place in the file as it is, but for the line itself. */
  lemma DonePos(o: Options, s: State, r: string, q: string, attrs: set<Flag>)
    ensures DoneRead(s, r, q, attrs).pos == s.pos + 1
    ensures Judged(o, s, r).pos == s.pos
  {
  }

  lemma RunPos(o: Options, s: State, r: string, cmd: seq<string>, shell: Result)
    requires cmd != []
    ensures Run(o, s, r, cmd, shell).pos == s.pos
  {
    hide Executes;
  }

  lemma DoneGrown(lines: seq<Line>, acts: seq<Act>, o: Options, s1: State, s2: State, f: Act, pos: nat)
    requires f.Block? && f.stop == pos && Grown(lines, acts, pos) && StartsAt(lines, f.rule, f.at)
    ensures Grown(lines, With(Trace(acts, map[]), Ending(o, s1, s2, f)).acts, pos + 1)
  {
    hide Grown, Judged, Due, Excused;
    GrownBlock(lines, acts, Ending(o, s1, s2, f), pos);
  }

  lemma AtEnd(s: State, f: Act)
    requires f.Block?
    ensures var a := Unread(s, f);
      && a.Block? && a.rule == f.rule && a.making == f.making && a.from == f.from && a.at == f.at && a.stop == f.stop
      && a.ends == f.high && Close(s, f.rule, f.high).pos == s.pos && a.outcome.Unfinished?
  {
  }

  /** The count of active targets is as it was before the block. */
  lemma Restored(s0: State, t0: Trace, s: State, t: Trace, r: string, found: Option<Found>, making: set<string>, z: nat)
    requires Since(s0, t0, s, t, making) && s.active == Begin(s0, r, found).active
    ensures Close(s, r, z).active == s0.active
  {
  }

  /** A prev line for a rule that is not being made. */
  lemma Looked(o: Options, lines: seq<Line>, s: State, t: Trace, f: Act, making: set<string>, q: string)
    returns (s2: State, g: Act)
    requires f.Block? && f.rule !in making && f.making == making + {f.rule} && q !in f.making
    requires World(o, lines, s, t, f.making) && Within(lines, s, t, f) && f.stop == s.pos < |lines|
      && lines[s.pos] == Prev(q)
    ensures var s1 := s.(pos := s.pos + 1);
      && s2 == Stain(s1, f.rule, q) && s2.active == s.active && s2.pos == s1.pos
      && g == Read(f, LookAt(s1, t, q), Higher(s1, q, f.high), s1.pos, f.cmd)
    ensures World(o, lines, s2, t, f.making) && Within(lines, s2, t, g) && Since(s, t, s2, t, making)
  {
    var s1 := s.(pos := s.pos + 1);
    hide World, Within, Since;
    NextLine(o, lines, s, t, f, making);
    s2, g := LookedAt(o, lines, s1, t, f, making, q);
    Onward(s, t, s1, t, s2, t, making);
  }

  /** The flags of a make line are given. */
  lemma GiveLine(o: Options, lines: seq<Line>, s: State, t: Trace, f: Act, making: set<string>, q: string,
                 attrs: set<Flag>)
    returns (s1: State)
    requires f.Block? && f.making == making + {f.rule}
    requires World(o, lines, s, t, f.making) && Within(lines, s, t, f) && s.pos < |lines|
    ensures s1 == Give(s.(pos := s.pos + 1), q, attrs) && s1.pos == s.pos + 1 && s1.active == s.active
    ensures World(o, lines, s1, t, f.making) && Within(lines, s1, t, f) && Since(s, t, s1, t, making)
  {
    s1 := Give(s.(pos := s.pos + 1), q, attrs);
    assert s.pos < |lines|;
    Given(o, lines, s, t, f.making, q, attrs);
    Outside(lines, s, t, s1, t, f, making);
  }

  /** What a make line leads to, once its block was read. */
  lemma Entered(o: Options, lines: seq<Line>, s0: State, s1: State, t1: Trace, s: State, t: Trace, f: Act,
                making: set<string>, q: string)
    returns (s2: State, g: Act)
    requires f.Block? && f.rule !in making && f.making == making + {f.rule} && q !in f.making
    requires Within(lines, s1, t1, f) && f.stop == s0.pos < |lines| && lines[f.stop].Make? && lines[f.stop].rule == q
    requires s1.pos == s0.pos + 1 && Since(s0, t1, s1, t1, making) && Since(s1, t1, s, t, f.making)
      && s.active == s1.active
    requires World(o, lines, s, t, f.making) && Returned(t, |t1.acts|, q, s1.pos, s.pos, f.making)
    ensures s2 == Stain(s, f.rule, q) && s2.active == s.active && s0.pos < s2.pos == s.pos <= |lines|
    ensures g == Read(f, LookAt(s, t, q), Higher(s, q, f.high), s.pos, f.cmd)
    ensures World(o, lines, s2, t, f.making) && Within(lines, s2, t, g) && Since(s0, t1, s2, t, making)
  {
    hide World, Within, Since, Stain, Higher, LookAt, Read;
    Alive(o, lines, s, t, f.making);
    Inside(lines, s1, t1, s, t, f, f.making);
    Outside(lines, s1, t1, s, t, f, making);
    Onward(s0, t1, s1, t1, s, t, making);
    s2, g := LookedAt(o, lines, s, t, f, making, q);
    Onward(s0, t1, s, t, s2, t, making);
  }

  lemma Alive(o: Options, lines: seq<Line>, s: State, t: Trace, making: set<string>)
    requires World(o, lines, s, t, making)
    ensures s.pos <= |lines| && !s.exited
  {
  }

  lemma Inside(lines: seq<Line>, s1: State, t1: Trace, s: State, t: Trace, f: Act, making: set<string>)
    requires Within(lines, s1, t1, f) && Since(s1, t1, s, t, making)
    ensures f.Block? && f.from <= |t1.acts| <= |t.acts| && s1.pos <= s.pos
  {
  }

  /** A block inside is read. */
  lemma Outside(lines: seq<Line>, s1: State, t1: Trace, s: State, t: Trace, f: Act, making: set<string>)
    requires f.Block? && f.making == making + {f.rule} && Within(lines, s1, t1, f)
    requires Since(s1, t1, s, t, f.making) && s.active == s1.active
    ensures Since(s1, t1, s, t, making) && Within(lines, s, t, f)
  {
    hide Within, Timed;
    assert Spared(s1, s, t.acts, |t1.acts|, f.rule);
    WithinLater(lines, s1, t1, s, t, f, making);
  }

  lemma NoLibs(s: State, t: Trace, making: set<string>, r: string, libs: seq<string>, z: nat)
    ensures Since(s, t, s, t, making) && Timed(s, s, t.acts, |t.acts|, r)
    ensures LibsOk(t.acts, |t.acts|, Libs(|t.acts|, 0), libs[..0])
    ensures Highs(t.acts, |t.acts|, z, z) && AllStained(s, t.acts, |t.acts|, r)
  {
  }

  ghost predicate Returned(t: Trace, from: nat, r: string, at: nat, stop: nat, making: set<string>) {
    && from < |t.acts| && r in t.last && t.last[r] == |t.acts| - 1
    && var a := t.acts[|t.acts| - 1];
    a.Block? && a.rule == r && a.at == at && a.stop == stop && a.making == making + {r} && a.from == from
  }

  // The same lines, told to the log.

  ghost predicate Longer(l: Logged, l1: Logged) {
    l.ties <= l1.ties && l.log <= l1.log
  }

  lemma LongerStill(l: Logged, l1: Logged, l2: Logged)
    requires Longer(l, l1) && Longer(l1, l2)
    ensures Longer(l, l2)
  {
  }

  lemma LongerLog(l: Logged, l1: Logged)
    requires l1.ties == l.ties && l.log <= l1.log
    ensures Longer(l, l1)
  {
  }

  /** Nothing was read yet. */
  lemma AtFirst(env: Env, s: State)
    requires s == State(map q | q in env.targets :: Rule(0, false, 0, {Active}), 0, if env.targets == {} then 1
      else 0, 0, false, false)
    ensures World(env.options, env.lines, s, Trace([], map[]), {}) && Told(env, s, [], Logged([], []), {})
  {
    forall q ensures MirrorAt(env, s, [], q) {
    }
  }

  /** What was looked at is there. */
  lemma SeenAll(lines: seq<Line>, s: State, t: Trace, f: Act)
    requires Within(lines, s, t, f)
    ensures f.Block? && forall i: nat, b: nat :: SeesAt(f, i, b) ==> b < |t.acts|
  {
    forall i: nat, b: nat | SeesAt(f, i, b) ensures b < |t.acts| {
      SeenThere(lines, t.acts, f, i, b);
    }
  }

  lemma ToldTies(env: Env, s: State, acts: seq<Act>, l: Logged, making: set<string>)
    requires Told(env, s, acts, l, making)
    ensures |l.ties| == |acts| && AllTied(env, acts, l.ties, l.log)
  {
    hide Mirrors, Counts, TiedAt;
  }

  /** exec, a line that is not for mamake, or one for a rule that is being made. */
  lemma PlainTold(env: Env, s: State, t: Trace, l: Logged, f: Act, tie: Tie, making: set<string>, s1: State, g: Act)
    returns (l1: Logged, tie1: Tie)
    requires Within(env.lines, s, t, f) && Told(env, s, t.acts, l, making) && Tells(env, t.acts, l, f, tie)
    requires f.stop == s.pos < |env.lines| && !env.lines[s.pos].Bind? && !env.lines[s.pos].Done?
    requires s1 == (if env.lines[s.pos].Exec? then Generates(s, f.rule) else s).(pos := s.pos + 1)
    requires g.Block? && g == Read(f, Nothing, g.high, s.pos + 1, g.cmd)
    ensures Told(env, s1, t.acts, l1, making) && Tells(env, t.acts, l1, g, tie1) && Longer(l, l1)
      && tie1.start == tie.start
  {
    hide Within, Told, Telling, Generates;
    SeenAll(env.lines, s, t, f);
    l1 := TellPlain(env, s, t.acts, l, f, tie, making, s1, g);
    tie1 := tie.(whens := tie.whens + [|l1.log|]);
  }

  /** A prev line for a rule that is not being made. */
  lemma PrevTold(o: Options, env: Env, s: State, t: Trace, l: Logged, f: Act, tie: Tie, q: string, s2: State, g: Act)
    returns (l1: Logged, tie1: Tie)
    requires Within(env.lines, s, t, f) && World(o, env.lines, s, t, f.making) && q !in f.making
    requires Told(env, s, t.acts, l, f.making) && Tells(env, t.acts, l, f, tie)
    requires f.stop == s.pos < |env.lines| && env.lines[s.pos] == Prev(q)
    requires s2 == Stain(s.(pos := s.pos + 1), f.rule, q)
    requires g.Block? && g == Read(f, LookAt(s.(pos := s.pos + 1), t, q), g.high, s.pos + 1, g.cmd)
    ensures Told(env, s2, t.acts, l1, f.making) && Tells(env, t.acts, l1, g, tie1) && Longer(l, l1)
      && tie1.start == tie.start
  {
    var s1 := s.(pos := s.pos + 1);
    assert KnownAt(s, t, q);
    assert KnownAt(s1, t, q);
    hide World, Within, Told, Telling, KnownAt, LookAt, Stain;
    SeenAll(env.lines, s, t, f);
    ToldPos(env, s, t.acts, l, f.making, s1);
    l1 := TellLooked(env, t.acts, l, s1, t, l, f, tie, f.making, q, s2, g);
    tie1 := tie.(whens := tie.whens + [|l1.log|]);
  }

  /** The flags that a make line gives. */
  lemma GiveTold(env: Env, s: State, t: Trace, l: Logged, making: set<string>, q: string, attrs: set<Flag>)
    returns (l1: Logged)
    requires Told(env, s, t.acts, l, making) && s.pos < |env.lines| && env.lines[s.pos] == Line.Make(q, attrs)
    ensures Told(env, Give(s.(pos := s.pos + 1), q, attrs), t.acts, l1, making)
    ensures l1 == Logged(l.ties, l.log + [Attributed(q, s.pos)])
  {
    var s1 := s.(pos := s.pos + 1);
    l1 := Logged(l.ties, l.log + [Attributed(q, s.pos)]);
    ToldPos(env, s, t.acts, l, making, s1);
    assert Mirrors(env, s1, l.log) && AttrsOf(env.lines[s.pos]) == attrs;
    hide Mirrors, AllTied, Allowed, HasFlag;
    MirrorGive(env, s1, l.log, q, s.pos);
    ToldMore(env, s1, t.acts, l, making, Give(s1, q, attrs), Attributed(q, s.pos));
  }

  /** The block that was entered when the log was at start is the last record. */
  ghost predicate Back(t: Trace, l: Logged, start: nat) {
    |l.ties| == |t.acts| > 0 && l.ties[|l.ties| - 1].start == start < l.ties[|l.ties| - 1].finish == |l.log|
  }

  lemma SameFailure(env: Env, s0: State, t0: Trace, l0: Logged, s: State, t: Trace, l: Logged, making: set<string>,
                    r: string)
    requires Told(env, s0, t0.acts, l0, making) && Told(env, s, t.acts, l, making)
      && Spared(s0, s, t.acts, |t0.acts|, r)
    ensures HasFlag(env, l.log, r, Error) <==> HasFlag(env, l0.log, r, Error)
  {
    assert MirrorAt(env, s0, l0.log, r) && MirrorAt(env, s, l.log, r) && Error != Made;
    hide HasFlag, TimeAfter, Lower, Timed, AllTied, Counts;
  }

  /** A make line, once its block was read. */
  lemma MakeTold(o: Options, env: Env, s0: State, t0: Trace, l0: Logged, s1: State, l1: Logged, s: State, t: Trace,
                 l: Logged,
                 f: Act, tie: Tie, q: string, attrs: set<Flag>, s2: State, g: Act) returns (l2: Logged, tie2: Tie)
    requires Within(env.lines, s0, t0, f) && Told(env, s0, t0.acts, l0, f.making) && Tells(env, t0.acts, l0, f, tie)
    requires f.rule in f.making && q !in f.making
    requires f.stop == s0.pos < |env.lines| && env.lines[s0.pos] == Line.Make(q, attrs)
    requires l1 == Logged(l0.ties, l0.log + [Attributed(q, s0.pos)])
    requires s1 == Give(s0.(pos := s0.pos + 1), q, attrs) && Since(s1, t0, s, t, f.making)
    requires World(o, env.lines, s, t, f.making) && Told(env, s, t.acts, l, f.making) && Longer(l1, l)
    requires q in t.last && t.last[q] == |t.acts| - 1 && Back(t, l, |l1.log|)
    requires s2 == Stain(s, f.rule, q) && g.Block? && g == Read(f, LookAt(s, t, q), g.high, g.stop, g.cmd)
    ensures Told(env, s2, t.acts, l2, f.making) && Tells(env, t.acts, l2, g, tie2) && Longer(l0, l2)
      && tie2.start == tie.start
  {
    assert KnownAt(s, t, q);
    assert t0.acts <= t.acts && Spared(s1, s, t.acts, |t0.acts|, f.rule);
    assert Spared(s0, s, t.acts, |t0.acts|, f.rule) by {
      assert q != f.rule;
      assert Get(s0, f.rule) == Get(s1, f.rule);
    }
    hide World, Within, Told, Telling, KnownAt, LookAt, Stain, Since, Spared, Give;
    SeenAll(env.lines, s0, t0, f);
    SameFailure(env, s0, t0, l0, s, t, l, f.making, f.rule);
    assert l.log[|l0.log|] == Attributed(q, s0.pos);
    l2 := TellLooked(env, t0.acts, l0, s, t, l, f, tie, f.making, q, s2, g);
    tie2 := tie.(whens := tie.whens + [|l2.log|]);
  }

  /** The first n libraries of line k, in the log behind l0: a failure of one is a failure of r. */
  ghost predicate LibsTold(env: Env, acts: seq<Act>, l0: Logged, l: Logged, r: string, k: nat, first: nat, n: nat) {
    && LibsTied(acts, l, r, k, |l0.log|, first, n) && Longer(l0, l)
    && (HasFlag(env, l.log, r, Error) <==> HasFlag(env, l0.log, r, Error) || LookFailed(acts, Libs(first, n)))
  }

  lemma LibsLonger(env: Env, acts: seq<Act>, l0: Logged, l: Logged, r: string, k: nat, first: nat, n: nat)
    requires LibsTold(env, acts, l0, l, r, k, first, n)
    ensures Longer(l0, l)
  {
    hide LibsTied, HasFlag, Longer;
  }

  lemma SinceActs(s0: State, t0: Trace, s: State, t: Trace, making: set<string>)
    requires Since(s0, t0, s, t, making)
    ensures t0.acts <= t.acts && s0.pos <= s.pos
  {
    hide Spared, Get;
  }

  lemma NoLibsTold(env: Env, acts: seq<Act>, l: Logged, r: string, k: nat)
    requires |l.ties| == |acts|
    ensures LibsTold(env, acts, l, l, r, k, |acts|, 0)
  {
  }

  lemma LibTold(env: Env, s: State, t: Trace, l0: Logged, l: Logged, making: set<string>, r: string, q: string, k: nat,
                attrs: set<Flag>, first: nat, n: nat, s1: State, t1: Trace) returns (l1: Logged)
    requires Told(env, s, t.acts, l, making) && LibsTold(env, t.acts, l0, l, r, k, first, n)
    requires k < |env.lines| && AttrsOf(env.lines[k]) == attrs
    requires s1 == Bound(Give(s, q, attrs), q, env.find(k + 1, q))
    requires t1.acts == t.acts + [File(q, Get(s1, q).time, Error in Get(s1, q).flags)]
    ensures Told(env, Stain(s1, r, q), t1.acts, l1, making) && LibsTold(env, t1.acts, l0, l1, r, k, first, n + 1)
  {
    hide HasFlag, Told, LibTied, Bound, Give, Stain, LookFailed, Behind;
    var s2, a;
    assert |t.acts| == first + n;
    s2, a, l1 := TellLib(env, s, t.acts, l, making, r, q, k, |l0.log|, first, n);
    FailedMore(t.acts, a, first, n);
  }

  /** A bind line. */
  lemma BindTold(env: Env, s0: State, t0: Trace, l0: Logged, f: Act, tie: Tie, t: Trace, l: Logged, g: Act)
    returns (tie1: Tie)
    requires Within(env.lines, s0, t0, f) && Tells(env, t0.acts, l0, f, tie) && |l0.ties| == |t0.acts| <= |t.acts|
    requires t0.acts <= t.acts && f.stop < |env.lines| && env.lines[f.stop].Bind?
    requires LibsTold(env, t.acts, l0, l, f.rule, f.stop, |t0.acts|, |t.acts| - |t0.acts|)
    requires g.Block? && g == Read(f, Libs(|t0.acts|, |t.acts| - |t0.acts|), g.high, g.stop, g.cmd)
    ensures Tells(env, t.acts, l, g, tie1) && tie1.start == tie.start
  {
    hide Within, Telling, HasFlag, LibsTied, LookFailed;
    SeenAll(env.lines, s0, t0, f);
    TellBind(env, t0.acts, l0, f, tie, t.acts, l, g);
    tie1 := tie.(whens := tie.whens + [|l.log|]);
  }

  /** The done line. */
  lemma DoneTold(env: Env, s: State, t: Trace, l: Logged, f: Act, tie: Tie, making: set<string>, q: string,
                 attrs: set<Flag>, s1: State, s2: State) returns (l1: Logged)
    requires Within(env.lines, s, t, f) && f.making == making + {f.rule} && f.rule !in making
    requires Told(env, s, t.acts, l, f.making) && Tells(env, t.acts, l, f, tie)
    requires f.cmd != [] ==> s.active > 0
    requires f.stop == s.pos < |env.lines| && env.lines[s.pos] == Done(q, attrs)
    requires s1 == DoneRead(s, f.rule, q, attrs)
    requires s2 == Acted(env.options, s1, f.rule, f.cmd, f.high, env.shell(s.pos))
    requires !s2.exited && !Judged(env.options, s2, f.rule).exited
    ensures
      var a := Ending(env.options, s1, s2, f);
      var t1 := With(t, a);
      && Told(env, Close(Judged(env.options, s2, f.rule), f.rule, a.ends), t1.acts, l1, making)
      && Longer(l, l1) && Back(t1, l1, tie.start)
  {
    hide Within, Telling, Ending, DoneRead, Acted, Judged, Close, Told;
    SeenAll(env.lines, s, t, f);
    ToldTies(env, s, t.acts, l, f.making);
    StartThere(env, t.acts, l, f, tie);
    l1 := TellDone(env, s, t.acts, l, f, tie, making, q, attrs, s1, s2);
  }

  lemma StartThere(env: Env, acts: seq<Act>, l: Logged, f: Act, tie: Tie)
    requires Tells(env, acts, l, f, tie)
    ensures tie.start <= |l.log|
  {
    hide Head, Steps, HasFlag;
  }

  /** The input runs out. */
  lemma UnreadTold(env: Env, s: State, t: Trace, l: Logged, f: Act, tie: Tie, making: set<string>) returns (l1: Logged)
    requires f.Block? && f.making == making + {f.rule} && f.rule !in making
    requires Told(env, s, t.acts, l, f.making) && Tells(env, t.acts, l, f, tie)
    ensures
      var a := Unread(s, f);
      && Told(env, Close(s, f.rule, a.ends), With(t, a).acts, l1, making)
      && Longer(l, l1) && Back(With(t, a), l1, tie.start)
  {
    hide Telling, Close, Told, Unread;
    ToldTies(env, s, t.acts, l, f.making);
    StartThere(env, t.acts, l, f, tie);
    l1 := TellUnread(env, s, t.acts, l, f, tie, making);
  }
}
