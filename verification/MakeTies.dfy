/**
 How the records of a run stay tied to its log, line by line (src/cmd/INIT/mamake.c:1548-1717).
 */
module MakeTies {
  import opened MakeLog
  import opened MakeTrace
  import opened MakeSteps
  import opened MakeLines
  import opened MakeMirror
  import opened Wrappers

  /** The ties of the records, and the log. */
  datatype Logged = Logged(ties: seq<Tie>, log: seq<Event>)

  /** As many targets are active as are being made, and one more if all are. */
  ghost predicate Counts(env: Env, s: State, making: set<string>) {
    s.active == (if env.targets == {} then 1 else 0) + |making * env.targets|
  }

  ghost predicate Told(env: Env, s: State, acts: seq<Act>, l: Logged, making: set<string>) {
    Mirrors(env, s, l.log) && AllTied(env, acts, l.ties, l.log) && Counts(env, s, making)
  }

  ghost predicate Tells(env: Env, acts: seq<Act>, l: Logged, f: Act, t: Tie) {
    Telling(env, acts, l.ties, l.log, f, t)
  }

  // The log only grows.

  lemma SameFront(log: seq<Event>, more: seq<Event>, n: nat)
    requires log <= more && n <= |log|
    ensures more[..n] == log[..n]
  {
  }

  lemma LibLater(acts: seq<Act>, ties: seq<Tie>, log: seq<Event>, acts': seq<Act>, ties': seq<Tie>, log': seq<Event>,
                 r: string, k: nat, c: nat, first: nat, j: nat)
    requires acts <= acts' && ties <= ties' && log <= log' && |acts'| == |ties'|
    requires LibTied(acts, ties, log, r, k, c, first, j)
    ensures LibTied(acts', ties', log', r, k, c, first, j)
  {
    var b := first + j;
    assert acts'[b] == acts[b] && ties'[b] == ties[b];
    if j > 0 {
      assert acts'[b - 1] == acts[b - 1] && ties'[b - 1] == ties[b - 1];
    }
  }

  /** A line that was read did what it did, whatever comes later. */
  lemma StepLater(env: Env, acts: seq<Act>, ties: seq<Tie>, log: seq<Event>, f: Act, t: Tie,
                  acts': seq<Act>, ties': seq<Tie>, log': seq<Event>, g: Act, t': Tie, i: nat)
    requires acts <= acts' && ties <= ties' && log <= log' && |acts'| == |ties'|
    requires f.Block? && i < |f.track| == |f.looks| == |t.whens| && f.track[i] < |env.lines|
    requires g.Block? && i < |g.track| == |g.looks| == |t'.whens| && g.rule == f.rule && t'.start == t.start
    requires g.track[i] == f.track[i] && g.looks[i] == f.looks[i] && t.whens <= t'.whens
    requires Step(env, acts, ties, log, f, t, i)
    ensures Step(env, acts', ties', log', g, t', i)
  {
    hide HasFlag;
    var look := f.looks[i];
    assert t'.whens[i] == t.whens[i] && Clock(g, t', i) == Clock(f, t, i);
    var c := Clock(f, t, i);
    SameFront(log, log', c);
    match env.lines[f.track[i]] {
      case Make(_, _) =>
        if look.Saw? {
          assert acts'[look.act] == acts[look.act] && ties'[look.act] == ties[look.act];
          SameFront(log, log', ties[look.act].finish);
        }
      case Prev(_) =>
        if look.Saw? {
          assert acts'[look.act] == acts[look.act];
        }
      case Bind(_, _) =>
        forall j | 0 <= j < look.many ensures LibTied(acts', ties', log', f.rule, f.track[i], c, look.first, j) {
          LibLater(acts, ties, log, acts', ties', log', f.rule, f.track[i], c, look.first, j);
        }
        if look.many > 0 {
          var b := look.first + look.many - 1;
          assert acts'[b] == acts[b] && ties'[b] == ties[b];
        }
      case _ =>
    }
  }

  lemma HeadLater(env: Env, log: seq<Event>, f: Act, t: Tie, log': seq<Event>, g: Act, t': Tie)
    requires f.Block? && g.Block? && Head(env, log, f, t) && log <= log' && t'.start == t.start
    requires g.rule == f.rule && g.at == f.at && g.own == f.own && g.active == f.active && g.making == f.making
    ensures Head(env, log', g, t')
  {
    SameFront(log, log', Clock(f, t, 0));
  }

  lemma StepsLater(env: Env, acts: seq<Act>, ties: seq<Tie>, log: seq<Event>, f: Act, t: Tie,
                   acts': seq<Act>, ties': seq<Tie>, log': seq<Event>, g: Act, t': Tie)
    requires acts <= acts' && ties <= ties' && log <= log' && |acts'| == |ties'|
    requires f.Block? && |f.track| == |f.looks| == |t.whens| && Steps(env, acts, ties, log, f, t)
    requires g.Block? && |g.track| == |g.looks| == |t'.whens| && g.rule == f.rule && t'.start == t.start
    requires f.track <= g.track && f.looks <= g.looks && t.whens <= t'.whens
    ensures forall i :: 0 <= i < |f.track| ==> g.track[i] < |env.lines| && Step(env, acts', ties', log', g, t', i)
  {
    forall i | 0 <= i < |f.track| ensures g.track[i] < |env.lines| && Step(env, acts', ties', log', g, t', i) {
      assert g.track[i] == f.track[i] && g.looks[i] == f.looks[i];
      StepLater(env, acts, ties, log, f, t, acts', ties', log', g, t', i);
    }
  }

  lemma AllTiedLater(env: Env, acts: seq<Act>, ties: seq<Tie>, log: seq<Event>, log': seq<Event>)
    requires AllTied(env, acts, ties, log) && log <= log'
    ensures AllTied(env, acts, ties, log')
  {
    hide Tied;
    forall a | 0 <= a < |acts| ensures TiedAt(env, acts, ties, log', a) {
      assert TiedAt(env, acts, ties, log, a);
      SameFront(log, log', ties[a].finish);
    }
  }

  lemma AllTiedMore(env: Env, acts: seq<Act>, ties: seq<Tie>, log: seq<Event>, a: Act, t: Tie)
    requires AllTied(env, acts, ties, log) && Tied(env, acts, ties, log, a, t) && t.finish == |log|
    ensures AllTied(env, acts + [a], ties + [t], log)
  {
    hide Tied;
    var acts', ties' := acts + [a], ties + [t];
    forall b | 0 <= b < |acts'| ensures TiedAt(env, acts', ties', log, b) {
      if b < |acts| {
        assert TiedAt(env, acts, ties, log, b);
        assert acts'[..b] == acts[..b] && ties'[..b] == ties[..b] && acts'[b] == acts[b] && ties'[b] == ties[b];
      } else {
        assert acts'[..b] == acts && ties'[..b] == ties && log[..|log|] == log;
      }
    }
    forall b | 0 <= b < |acts| ensures ties[b].finish <= |log| {
      assert TiedAt(env, acts, ties, log, b);
    }
  }

  /** The look sees a failed record. */
  ghost predicate LookFailed(acts: seq<Act>, look: Look) {
    exists b: nat :: LookSees(look, b) && b < |acts| && acts[b].failed
  }

  ghost predicate LookSees(look: Look, b: nat) {
    match look
    case Saw(act, _, _) => act == b
    case Libs(first, many) => first <= b < first + many
    case _ => false
  }

  lemma SawMore(acts: seq<Act>, acts': seq<Act>, f: Act, g: Act, look: Look)
    requires f.Block? && g.Block? && g.looks == f.looks + [look] && acts <= acts'
    requires forall i: nat, b: nat :: SeesAt(f, i, b) ==> b < |acts|
    ensures SawFailed(acts', g) <==> SawFailed(acts, f) || LookFailed(acts', look)
  {
    if SawFailed(acts', g) {
      var i: nat, b: nat :| SeesAt(g, i, b) && b < |acts'| && acts'[b].failed;
      if i < |f.looks| {
        assert SeesAt(f, i, b) && acts[b] == acts'[b];
      } else {
        assert LookSees(look, b);
      }
    }
    if SawFailed(acts, f) {
      var i: nat, b: nat :| SeesAt(f, i, b) && b < |acts| && acts[b].failed;
      assert SeesAt(g, i, b) && acts'[b] == acts[b];
    }
    if LookFailed(acts', look) {
      var b: nat :| LookSees(look, b) && b < |acts'| && acts'[b].failed;
      assert SeesAt(g, |f.looks|, b);
    }
  }

  /** One more line of a block, told. */
  lemma TellMore(env: Env, acts: seq<Act>, l: Logged, f: Act, t: Tie, acts': seq<Act>, l': Logged, g: Act, look: Look)
    requires Tells(env, acts, l, f, t) && (forall i: nat, b: nat :: SeesAt(f, i, b) ==> b < |acts|)
    requires acts <= acts' && l.ties <= l'.ties && l.log <= l'.log && |acts'| == |l'.ties|
    requires f.stop < |env.lines| && g.Block? && g.track == f.track + [f.stop] && g.looks == f.looks + [look]
    requires g.rule == f.rule && g.at == f.at && g.own == f.own && g.active == f.active && g.making == f.making
    requires Step(env, acts', l'.ties, l'.log, g, t.(whens := t.whens + [|l'.log|]), |f.track|)
    requires HasFlag(env, l'.log, f.rule, Error) <==> HasFlag(env, l.log, f.rule, Error) || LookFailed(acts', look)
    ensures Tells(env, acts', l', g, t.(whens := t.whens + [|l'.log|]))
  {
    hide HasFlag, Step, SawFailed, LookFailed;
    var t' := t.(whens := t.whens + [|l'.log|]);
    HeadLater(env, l.log, f, t, l'.log, g, t');
    StepsLater(env, acts, l.ties, l.log, f, t, acts', l'.ties, l'.log, g, t');
    SawMore(acts, acts', f, g, look);
    SameFront(l.log, l'.log, t.start);
    assert g.track[|f.track|] == f.stop;
    assert Steps(env, acts', l'.ties, l'.log, g, t');
  }

  /** One more event that changes no record. */
  lemma ToldMore(env: Env, s: State, acts: seq<Act>, l: Logged, making: set<string>, s1: State, e: Event)
    requires Told(env, s, acts, l, making) && Mirrors(env, s1, l.log + [e]) && s1.active == s.active
    ensures Told(env, s1, acts, Logged(l.ties, l.log + [e]), making)
  {
    hide Mirrors, AllTied;
    AllTiedLater(env, acts, l.ties, l.log, l.log + [e]);
  }

  /** The position in the file is not a matter of the log. */
  lemma ToldPos(env: Env, s: State, acts: seq<Act>, l: Logged, making: set<string>, s1: State)
    requires Told(env, s, acts, l, making) && s1.rules == s.rules && s1.active == s.active
    ensures Told(env, s1, acts, l, making)
  {
    hide AllTied;
    Unlogged(env, s, s1, l.log);
  }

  // Line by line.

  /** A line that looks at no record. */
  lemma TellPlain(env: Env, s: State, acts: seq<Act>, l: Logged, f: Act, t: Tie, making: set<string>, s1: State, g: Act)
    returns (l1: Logged)
    requires Told(env, s, acts, l, making) && Tells(env, acts, l, f, t)
    requires f.Block? && (forall i: nat, b: nat :: SeesAt(f, i, b) ==> b < |acts|)
    requires f.stop == s.pos < |env.lines| && !env.lines[s.pos].Bind? && !env.lines[s.pos].Done?
    requires s1 == (if env.lines[s.pos].Exec? then Generates(s, f.rule) else s).(pos := s.pos + 1)
    requires g.Block? && g == Read(f, Nothing, g.high, s.pos + 1, g.cmd)
    ensures l1 == Logged(l.ties, l.log + if env.lines[s.pos].Exec? then [Regenerated(f.rule, s.pos)] else [])
    ensures Told(env, s1, acts, l1, making) && Tells(env, acts, l1, g, t.(whens := t.whens + [|l1.log|]))
  {
    assert |acts| == |l.ties|;
    hide HasFlag, Mirrors, AllTied, TimeAfter;
    l1 := Logged(l.ties, l.log + if env.lines[s.pos].Exec? then [Regenerated(f.rule, s.pos)] else []);
    if env.lines[s.pos].Exec? {
      var e := Regenerated(f.rule, s.pos);
      MirrorGenerate(env, s, l.log, f.rule, s.pos);
      ToldMore(env, s, acts, l, making, Generates(s, f.rule), e);
      ToldPos(env, Generates(s, f.rule), acts, l1, making, s1);
      Appended(env, l.log, e, f.rule);
    } else {
      assert l1 == l;
      ToldPos(env, s, acts, l, making, s1);
    }
    TellMore(env, acts, l, f, t, acts, l1, g, Nothing);
  }

  /** The failure of a rule that was looked at. */
  function Stains(s: State, q: string, r: string): seq<Event> {
    if Error in Get(s, q).flags then [MarkedFailed(r)] else []
  }

  lemma TellStain(env: Env, s: State, acts: seq<Act>, l: Logged, making: set<string>, r: string, q: string)
    requires Told(env, s, acts, l, making)
    ensures Told(env, Stain(s, r, q), acts, Logged(l.ties, l.log + Stains(s, q, r)), making)
    ensures HasFlag(env, l.log + Stains(s, q, r), r, Error) <==>
      HasFlag(env, l.log, r, Error) || Error in Get(s, q).flags
  {
    hide HasFlag, Mirrors, AllTied;
    if Error in Get(s, q).flags {
      MirrorFail(env, s, l.log, r);
      ToldMore(env, s, acts, l, making, Mark(s, r, Error), MarkedFailed(r));
      Appended(env, l.log, MarkedFailed(r), r);
    } else {
      assert l.log + [] == l.log;
    }
  }

  /** The end of a make line, the block of which was read since, or of a prev line. */
  lemma TellLooked(env: Env, acts0: seq<Act>, l0: Logged, s: State, t: Trace, l: Logged, f: Act, tie: Tie,
                   making: set<string>, q: string, s1: State, g: Act) returns (l1: Logged)
    requires Tells(env, acts0, l0, f, tie) && f.Block? && (forall i: nat, b: nat :: SeesAt(f, i, b) ==> b < |acts0|)
    requires acts0 <= t.acts && l0.ties <= l.ties && l0.log <= l.log
    requires Told(env, s, t.acts, l, making) && KnownAt(s, t, q)
    requires HasFlag(env, l.log, f.rule, Error) <==> HasFlag(env, l0.log, f.rule, Error)
    requires f.stop < |env.lines|
    requires
      || (env.lines[f.stop].Prev? && env.lines[f.stop].rule == q && l0 == l)
      || (env.lines[f.stop].Make? && env.lines[f.stop].rule == q && q in t.last && Enters(t, l, |l0.log|, q, f.stop))
    requires s1 == Stain(s, f.rule, q) && g.Block? && g == Read(f, LookAt(s, t, q), g.high, g.stop, g.cmd)
    ensures l1 == Logged(l.ties, l.log + Stains(s, q, f.rule))
    ensures Told(env, s1, t.acts, l1, making) && Tells(env, t.acts, l1, g, tie.(whens := tie.whens + [|l1.log|]))
  {
    hide HasFlag, TimeAfter;
    assert |l.ties| == |t.acts| && MirrorAt(env, s, l.log, q) && |l0.log| == Clock(f, tie, |tie.whens|);
    if q in t.last {
      assert TiedAt(env, t.acts, l.ties, l.log, t.last[q]);
      assert l.ties[t.last[q]].finish <= |l.log|;
    }
    hide Mirrors, AllTied, TiedAt, KnownAt, MirrorAt, Steps, Head, HadFailed, SawFailed;
    l1 := Logged(l.ties, l.log + Stains(s, q, f.rule));
    TellStain(env, s, t.acts, l, making, f.rule, q);
    LookTells(env, s, t, l, q);
    SameFront(l.log, l1.log, |l.log|);
    assert l.log[..|l.log|] == l.log;
    TellMore(env, acts0, l0, f, tie, t.acts, l1, g, LookAt(s, t, q));
  }

  /** What a look at a rule sees of the log. */
  lemma LookTells(env: Env, s: State, t: Trace, l: Logged, q: string)
    requires KnownAt(s, t, q) && MirrorAt(env, s, l.log, q)
    ensures LookFailed(t.acts, LookAt(s, t, q)) <==> Error in Get(s, q).flags
    ensures q in t.last ==> t.last[q] < |t.acts| && (t.acts[t.last[q]].failed <==> Error in Get(s, q).flags)
    ensures q !in t.last ==> Error !in Get(s, q).flags
    ensures Ignore in Get(s, q).flags <==> HasFlag(env, l.log, q, Ignore)
  {
    hide HasFlag;
    if q in t.last {
      assert LookSees(LookAt(s, t, q), t.last[q]);
    }
  }

  /** The last record is the block that was entered at line k, when the log was at c. */
  ghost predicate Enters(t: Trace, l: Logged, c: nat, q: string, k: nat)
    requires q in t.last
  {
    && t.last[q] + 1 == |t.acts| == |l.ties| && EventAt(l.log, c, Attributed(q, k))
    && l.ties[t.last[q]].start == c + 1 && c < l.ties[t.last[q]].finish == |l.log|
  }

  // A bind line.

  /** The first n libraries of line k are tied, and the log is right behind them. */
  ghost predicate LibsTied(acts: seq<Act>, l: Logged, r: string, k: nat, c: nat, first: nat, n: nat) {
    && |acts| == |l.ties| == first + n
    && (forall j :: 0 <= j < n ==> LibTied(acts, l.ties, l.log, r, k, c, first, j))
    && |l.log| == if n == 0 then c else Behind(acts, l.ties, first + n - 1)
  }

  /** A library that is bound: its record, and where it starts and ends in the log. */
  lemma TellFile(env: Env, s: State, acts: seq<Act>, l: Logged, making: set<string>, q: string, k: nat)
    returns (s1: State, a: Act, l1: Logged)
    requires Told(env, s, acts, l, making) && k < |env.lines|
    ensures s1 == Bound(Give(s, q, AttrsOf(env.lines[k])), q, env.find(k + 1, q)) && s1.active == s.active
    ensures a == File(q, Get(s1, q).time, Error in Get(s1, q).flags)
    ensures l1.log == l.log + [Attributed(q, k)] + [LookedFor(q, k + 1)]
    ensures l1.ties == l.ties + [Tie(|l.log|, [], |l.log| + 2)]
    ensures Told(env, s1, acts + [a], l1, making)
    ensures forall r :: HasFlag(env, l1.log, r, Error) <==> HasFlag(env, l.log, r, Error)
    ensures a.failed <==> HasFlag(env, l1.log, q, Error)
  {
    var e1, e2 := Attributed(q, k), LookedFor(q, k + 1);
    var s0 := Give(s, q, AttrsOf(env.lines[k]));
    s1 := Bound(s0, q, env.find(k + 1, q));
    a := File(q, Get(s1, q).time, Error in Get(s1, q).flags);
    var log0, log1 := l.log + [e1], l.log + [e1] + [e2];
    l1 := Logged(l.ties + [Tie(|l.log|, [], |l.log| + 2)], log1);
    assert |log1| == |l.log| + 2 && log1[|l.log|] == e1 && log1[|l.log| + 1] == e2;
    MirrorGive(env, s, l.log, q, k);
    MirrorBind(env, s0, log0, q, k + 1);
    assert MirrorAt(env, s1, log1, q);
    forall r ensures HasFlag(env, log1, r, Error) <==> HasFlag(env, l.log, r, Error) {
      hide HasFlag;
      Appended(env, l.log, e1, r);
      Appended(env, log0, e2, r);
    }
    hide Mirrors, HasFlag, TimeAfter, Allowed;
    AllTiedLater(env, acts, l.ties, l.log, log1);
    assert Tied(env, acts, l.ties, log1, a, l1.ties[|l.ties|]);
    AllTiedMore(env, acts, l.ties, log1, a, l1.ties[|l.ties|]);
  }

  /** One more library, and its failure. */
  lemma TellLib(env: Env, s: State, acts: seq<Act>, l: Logged, making: set<string>, r: string, q: string, k: nat,
                c: nat, first: nat, n: nat) returns (s2: State, a: Act, l2: Logged)
    requires Told(env, s, acts, l, making) && k < |env.lines| && LibsTied(acts, l, r, k, c, first, n)
    ensures var s1 := Bound(Give(s, q, AttrsOf(env.lines[k])), q, env.find(k + 1, q));
      s2 == Stain(s1, r, q) && a == File(q, Get(s1, q).time, Error in Get(s1, q).flags)
      && l2.log == l.log + [Attributed(q, k)] + [LookedFor(q, k + 1)] + Stains(s1, q, r)
      && l2.ties == l.ties + [Tie(|l.log|, [], |l.log| + 2)]
    ensures Told(env, s2, acts + [a], l2, making) && LibsTied(acts + [a], l2, r, k, c, first, n + 1)
    ensures HasFlag(env, l2.log, r, Error) <==> HasFlag(env, l.log, r, Error) || a.failed
  {
    hide HasFlag, Told;
    var s1, l1;
    s1, a, l1 := TellFile(env, s, acts, l, making, q, k);
    s2 := Stain(s1, r, q);
    l2 := Logged(l1.ties, l1.log + Stains(s1, q, r));
    TellStain(env, s1, acts + [a], l1, making, r, q);
    var m := |acts|;
    assert l2.log[m - m + |l.log|] == Attributed(q, k) && l2.log[|l.log| + 1] == LookedFor(q, k + 1);
    forall j | 0 <= j < n + 1 ensures LibTied(acts + [a], l2.ties, l2.log, r, k, c, first, j) {
      if j < n {
        LibLater(acts, l.ties, l.log, acts + [a], l2.ties, l2.log, r, k, c, first, j);
      } else {
        assert l2.ties[first + j] == Tie(|l.log|, [], |l.log| + 2) && (acts + [a])[first + j] == a;
        if j > 0 {
          assert Behind(acts + [a], l2.ties, first + j - 1) == Behind(acts, l.ties, first + j - 1);
        }
      }
    }
  }

  lemma FailedMore(acts: seq<Act>, a: Act, first: nat, n: nat)
    requires |acts| == first + n
    ensures LookFailed(acts + [a], Libs(first, n + 1)) <==> LookFailed(acts, Libs(first, n)) || a.failed
  {
    var more := acts + [a];
    if LookFailed(acts, Libs(first, n)) {
      var b: nat :| LookSees(Libs(first, n), b) && b < |acts| && acts[b].failed;
      assert LookSees(Libs(first, n + 1), b) && more[b] == acts[b];
    }
    if a.failed {
      assert LookSees(Libs(first, n + 1), |acts|) && more[|acts|] == a;
    }
    if LookFailed(more, Libs(first, n + 1)) {
      var b: nat :| LookSees(Libs(first, n + 1), b) && b < |more| && more[b].failed;
      assert b < |acts| ==> LookSees(Libs(first, n), b) && acts[b] == more[b];
    }
  }

  /** A bind line ends. */
  lemma TellBind(env: Env, acts0: seq<Act>, l0: Logged, f: Act, t: Tie, acts: seq<Act>, l: Logged, g: Act)
    requires Tells(env, acts0, l0, f, t) && f.Block? && (forall i: nat, b: nat :: SeesAt(f, i, b) ==> b < |acts0|)
    requires acts0 <= acts && l0.ties <= l.ties && l0.log <= l.log && |acts0| == |l0.ties|
    requires f.stop < |env.lines| && env.lines[f.stop].Bind?
    requires LibsTied(acts, l, f.rule, f.stop, |l0.log|, |acts0|, |acts| - |acts0|)
    requires HasFlag(env, l.log, f.rule, Error) <==>
      HasFlag(env, l0.log, f.rule, Error) || LookFailed(acts, Libs(|acts0|, |acts| - |acts0|))
    requires g.Block? && g == Read(f, Libs(|acts0|, |acts| - |acts0|), g.high, g.stop, g.cmd)
    ensures Tells(env, acts, l, g, t.(whens := t.whens + [|l.log|]))
  {
    hide HasFlag, LookFailed;
    assert |l0.log| == Clock(f, t, |t.whens|);
    hide Steps, Head, HadFailed, SawFailed, LibTied;
    TellMore(env, acts0, l0, f, t, acts, l, g, Libs(|acts0|, |acts| - |acts0|));
  }
}
