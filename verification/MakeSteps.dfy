/**
 The state of mamake while a Mamfile is read, what each kind of line does to it, and how the trace of
 the run follows (src/cmd/INIT/mamake.c:341-357, 1021-1036, 1180-1277, 1393-1426, 1548-1717).
 */
module MakeSteps {
  import opened MakeLog
  import opened MakeTrace
  import opened Wrappers

  /** Whether the file was found in a lower view is what path keeps. */
  datatype Rule = Rule(time: nat, path: bool, making: nat, flags: set<Flag>)

  /** verified: some action was a recursive run. */
  datatype State = State(rules: map<string, Rule>, pos: nat, active: nat, errors: nat, exited: bool, verified: bool)

  /** The records so far and the latest of each rule. */
  datatype Trace = Trace(acts: seq<Act>, last: map<string, nat>)

  function Get(s: State, q: string): Rule {
    if q in s.rules then s.rules[q] else Rule(0, false, 0, {})
  }

  function Put(s: State, q: string, r: Rule): State {
    s.(rules := s.rules[q := r])
  }

  /** attributes: the flags a line gives to a rule. */
  function Give(s: State, q: string, attrs: set<Flag>): State {
    var r := Get(s, q);
    Put(s, q, r.(flags := r.flags + Allowed(attrs)))
  }

  function Mark(s: State, q: string, f: Flag): State {
    Put(s, q, Get(s, q).(flags := Get(s, q).flags + {f}))
  }

  /** bind. */
  function Bound(s: State, q: string, found: Option<Found>): State {
    match found
    case None => Put(s, q, Get(s, q))
    case Some(file) =>
      var r := Get(s, q);
      Put(s, q, r.(time := file.time, path := r.path || file.lower, flags := r.flags + {Exists}))
  }

  /** dont, but for an action whose failure is ignored. */
  function Dont(o: Options, s: State, q: string): State {
    if !o.keepgoing then s.(exited := true) else Mark(s, q, Error).(errors := s.errors + 1)
  }

  /** run. */
  function Run(o: Options, s: State, q: string, cmd: seq<string>, shell: Result): State
    requires cmd != []
  {
    if Error in Get(s, q).flags then s
    else
      var s0 := s.(verified := s.verified || IsRecursive(cmd));
      if Executes(o, cmd) then
        var s1 := if shell.code != 0 && !o.ignore then Dont(o, s0, q) else s0;
        if s1.exited then s1
        else if shell.time.Some? then Mark(Put(s1, q, Get(s1, q).(time := shell.time.value)), q, Exists)
        else Put(s1, q, Get(s1, q).(time := shell.now))
      else Mark(Put(s0, q, Get(s0, q).(time := shell.now)), q, Exists)
  }

  /** One of the flags that excuse a target that was not found and not made. */
  predicate Excused(flags: set<Flag>) {
    DontCare in flags || Exists in flags || Generated in flags || Implicit in flags || Virtual in flags
  }

  /** The target r of a block that starts. */
  function Open(s: State, r: string): State {
    var k := Get(s, r);
    Put(s, r, k.(making := k.making + 1)).(active := s.active + if Active in k.flags then 1 else 0)
  }

  /** The target r of a block that ends with time z. */
  function Close(s: State, r: string, z: nat): State {
    var k := Get(s, r);
    Put(s, r, k.(making := if k.making > 0 then k.making - 1 else 0, time := z)).(
      active := if Active in k.flags && s.active > 0 then s.active - 1 else s.active)
  }

  /** The state at a block's start: the target is bound, unless it is the nameless root. */
  function Begin(s: State, r: string, found: Option<Found>): State {
    if r != "" then Bound(Open(s, r), r, found) else Open(s, r)
  }

  /** A done line is read; one for another rule is an error. */
  function DoneRead(s: State, r: string, q: string, attrs: set<Flag>): State {
    Give(s.(pos := s.pos + 1, errors := if q != r then 1 else s.errors), r, attrs)
  }

  predicate ActionDue(o: Options, s: State, r: string, cmd: seq<string>, z: nat) {
    cmd != [] && s.active > 0 && Due(o, Get(s, r).time, z)
  }

  /** The action is run if it is due. */
  function Acted(o: Options, s: State, r: string, cmd: seq<string>, z: nat, shell: Result): State {
    if ActionDue(o, s, r, cmd, z) then Run(o, s, r, cmd, shell) else s
  }

  /** A target that is not there must be excused. */
  function Judged(o: Options, s: State, r: string): State {
    var m := Mark(s, r, Made);
    if Error !in Get(m, r).flags && !Excused(Get(m, r).flags) then Dont(o, m, r) else m
  }

  /** exec: what the target was bound to in a lower view is forgotten. */
  function Generates(s: State, r: string): State {
    var k := Get(s, r);
    Put(s, r, Rule(if k.path then 0 else k.time, false, k.making, k.flags + {Generated}))
  }

  // What holds of the state and the trace.

  /** The rules not being made have the time and the state that their latest record says. */
  ghost predicate Known(s: State, t: Trace, making: set<string>) {
    forall q :: q !in making ==> KnownAt(s, t, q)
  }

  ghost predicate KnownAt(s: State, t: Trace, q: string) {
    if q in t.last then
      && Latest(t.acts, |t.acts|, q, t.last[q])
      && Get(s, q).time == t.acts[t.last[q]].ends
      && (Error in Get(s, q).flags <==> t.acts[t.last[q]].failed)
    else
      NoneYet(t.acts, |t.acts|, q) && Get(s, q).time == 0 && Error !in Get(s, q).flags
  }

  ghost predicate Busy(s: State, making: set<string>) {
    forall q :: Get(s, q).making == if q in making then 1 else 0
  }

  ghost predicate NoErrors(o: Options, s: State) {
    !o.keepgoing ==> forall q :: Error !in Get(s, q).flags
  }

  ghost predicate World(o: Options, lines: seq<Line>, s: State, t: Trace, making: set<string>) {
    && s.pos <= |lines| && !s.exited && Busy(s, making) && Known(s, t, making)
    && AllFair(o, lines, t.acts) && NoErrors(o, s)
  }

  /** The failures seen by the block are on its target. */
  ghost predicate Stained(s: State, acts: seq<Act>, f: Act) {
    forall i: nat, b: nat :: SeesAt(f, i, b) && b < |acts| && acts[b].failed ==> Error in Get(s, f.rule).flags
  }

  /** The block is being read. */
  ghost predicate Within(lines: seq<Line>, s: State, t: Trace, f: Act) {
    && Partial(lines, t.acts, f) && f.rule in f.making && f.active == (s.active > 0)
    && NoDone(lines, f)
    && Stained(s, t.acts, f)
    && OwnTime(lines, t.acts, f, Get(s, f.rule).time)
  }

  ghost predicate NoDone(lines: seq<Line>, f: Act)
    requires f.Block?
  {
    forall i :: 0 <= i < |f.track| ==> f.track[i] < |lines| && !lines[f.track[i]].Done?
  }

  /** What a block changes for the rules being made outside of it. */
  ghost predicate Spared(s0: State, s1: State, acts: seq<Act>, from: nat, q: string) {
    (Error in Get(s0, q).flags <==> Error in Get(s1, q).flags) && Timed(s0, s1, acts, from, q)
  }

  ghost predicate Timed(s0: State, s1: State, acts: seq<Act>, from: nat, q: string) {
    Get(s1, q).time == Get(s0, q).time || Rebound(acts, from, q, Get(s1, q).time)
  }

  ghost predicate Since(s0: State, t0: Trace, s1: State, t1: Trace, making: set<string>) {
    && s0.pos <= s1.pos && t0.acts <= t1.acts
    && (forall q :: Get(s0, q).flags <= Get(s1, q).flags)
    && (forall q :: Active in Get(s1, q).flags ==> Active in Get(s0, q).flags)
    && forall q :: q in making ==> Spared(s0, s1, t1.acts, |t0.acts|, q)
  }

  /** s1 differs from s in rule r only, which is being made as before and has the flags it had. */
  ghost predicate Only(s: State, s1: State, r: string) {
    && (forall q :: q != r ==> Get(s1, q) == Get(s, q))
    && Get(s1, r).making == Get(s, r).making && Get(s, r).flags <= Get(s1, r).flags
    && (Active in Get(s1, r).flags ==> Active in Get(s, r).flags)
    && s1.active == s.active
  }

  lemma OnlyTwice(s: State, s1: State, s2: State, r: string)
    requires Only(s, s1, r) && Only(s1, s2, r)
    ensures Only(s, s2, r)
  {
    hide Get;
  }

  lemma TimeOnly(s: State, r: string, z: nat)
    ensures Only(s, Put(s, r, Get(s, r).(time := z)), r)
  {
  }

  lemma MarkOnly(s: State, r: string, f: Flag)
    requires f != Active
    ensures Only(s, Mark(s, r, f), r) && Mark(s, r, f).pos == s.pos
  {
  }

  lemma SameOnly(s: State, s1: State, r: string)
    requires s1.rules == s.rules && s1.active == s.active
    ensures Only(s, s1, r)
  {
  }

  lemma DontOnly(o: Options, s: State, r: string)
    ensures Only(s, Dont(o, s, r), r) && Dont(o, s, r).pos == s.pos
  {
  }

  lemma RunOnly(o: Options, s: State, r: string, cmd: seq<string>, z: nat, shell: Result)
    ensures Only(s, Acted(o, s, r, cmd, z, shell), r) && Acted(o, s, r, cmd, z, shell).pos == s.pos
  {
    hide Only, Get, Mark, Due, Executes, IsRecursive, Dont;
    SameOnly(s, s, r);
    if ActionDue(o, s, r, cmd, z) && Error !in Get(s, r).flags {
      var s0 := s.(verified := s.verified || IsRecursive(cmd));
      var s1 := if Executes(o, cmd) && shell.code != 0 && !o.ignore then Dont(o, s0, r) else s0;
      var s2 := Put(s1, r, Get(s1, r).(time := ActionTime(shell, Executes(o, cmd))));
      SameOnly(s, s0, r);
      DontOnly(o, s0, r);
      SameOnly(s0, s0, r);
      TimeOnly(s1, r, ActionTime(shell, Executes(o, cmd)));
      MarkOnly(s2, r, Exists);
      OnlyTwice(s, s0, s1, r);
      OnlyTwice(s, s1, s2, r);
      OnlyTwice(s, s2, Mark(s2, r, Exists), r);
    }
  }

  lemma Onward(s0: State, t0: Trace, s1: State, t1: Trace, s2: State, t2: Trace, making: set<string>)
    requires Since(s0, t0, s1, t1, making) && Since(s1, t1, s2, t2, making)
    ensures Since(s0, t0, s2, t2, making)
  {
    forall q | q in making ensures Spared(s0, s2, t2.acts, |t0.acts|, q) {
      assert Spared(s0, s1, t1.acts, |t0.acts|, q) && Spared(s1, s2, t2.acts, |t1.acts|, q);
    }
  }

  // One more line.

  /** The block with one more line read, which looked at this. */
  ghost function Read(f: Act, look: Look, z: nat, stop: nat, cmd: seq<string>): Act
    requires f.Block?
  {
    f.(track := f.track + [f.stop], looks := f.looks + [look], high := z, stop := stop, cmd := cmd)
  }

  lemma Extended(lines: seq<Line>, acts: seq<Act>, more: seq<Act>, f: Act)
    requires Partial(lines, acts, f) && acts <= more
    ensures Partial(lines, more, f)
  {
    forall i | 0 <= i < |f.track| ensures LookOk(lines, more, f, i) {
      assert LookOk(lines, acts, f, i);
      LookLater(lines, acts, more, f, i);
    }
    forall i | 0 <= i <= |f.track| ensures FlowAt(lines, more, f, i) {
      assert FlowAt(lines, acts, f, i);
      if i > 0 {
        assert LookOk(lines, acts, f, i - 1);
      }
    }
    HighestLater(lines, acts, more, f);
  }

  lemma LookLater(lines: seq<Line>, acts: seq<Act>, more: seq<Act>, f: Act, i: nat)
    requires f.Block? && i < |f.track| == |f.looks| && f.track[i] < |lines|
    requires LookOk(lines, acts, f, i) && acts <= more
    ensures LookOk(lines, more, f, i)
  {
    assert forall j {:trigger more[j]} :: 0 <= j < |acts| ==> more[j] == acts[j];
  }

  lemma HighestLater(lines: seq<Line>, acts: seq<Act>, more: seq<Act>, f: Act)
    requires Partial(lines, acts, f) && acts <= more
    ensures Highest(more, f)
  {
    forall i: nat, b: nat | UsesAt(f, i, b) && b < |more| ensures more[b].ends <= f.high {
      assert LookOk(lines, acts, f, i);
    }
    if f.high != f.own {
      var i: nat, b: nat :| UsesAt(f, i, b) && b < |acts| && acts[b].ends == f.high;
      assert more[b].ends == f.high;
    }
  }

  /** One more line keeps what holds while a block is read. */
  lemma Further(lines: seq<Line>, acts: seq<Act>, f: Act, g: Act, look: Look, z: nat, stop: nat, cmd: seq<string>)
    requires Partial(lines, acts, f) && f.stop < |lines| && g == Read(f, look, z, stop, cmd)
    requires LookOk(lines, acts, g, |f.track|) && stop == After(lines, acts, g, |f.track|)
    requires cmd == if f.active && lines[f.stop].Exec? then f.cmd + [lines[f.stop].text] else f.cmd
    requires f.high <= z
    requires forall b: nat :: UsesAt(g, |f.track|, b) && b < |acts| ==> acts[b].ends <= z
    requires z == f.high || exists b: nat :: UsesAt(g, |f.track|, b) && b < |acts| && acts[b].ends == z
    ensures Partial(lines, acts, g)
  {
    assert g.track[..|g.track| - 1] == f.track;
    HighestStill(acts, f, g, look, z);
    FlowsStill(lines, acts, f, g, look, stop);
    hide Highest, Flows, Texts;
    forall i | 0 <= i < |g.track| ensures LookOk(lines, acts, g, i) {
      if i < |f.track| {
        LookStill(lines, acts, f, g, i);
      }
    }
  }

  lemma LookStill(lines: seq<Line>, acts: seq<Act>, f: Act, g: Act, i: nat)
    requires f.Block? && i < |f.track| == |f.looks| && f.track[i] < |lines| && LookOk(lines, acts, f, i)
    requires g.Block? && i < |g.track| == |g.looks| && g.track[i] == f.track[i] && g.looks[i] == f.looks[i]
    requires g.making == f.making && g.from == f.from && g.rule == f.rule
    ensures LookOk(lines, acts, g, i)
  {
    hide Latest, NoneYet, LibsOk;
  }

  lemma FlowsStill(lines: seq<Line>, acts: seq<Act>, f: Act, g: Act, look: Look, stop: nat)
    requires f.Block? && g.Block? && |f.track| == |f.looks| && Flows(lines, acts, f) && f.stop < |lines|
    requires g.track == f.track + [f.stop] && g.looks == f.looks + [look] && g.at == f.at && g.stop == stop
    requires stop == After(lines, acts, g, |f.track|)
    ensures Flows(lines, acts, g)
  {
    forall i | 0 <= i <= |g.track| ensures FlowAt(lines, acts, g, i) {
      if i <= |f.track| {
        assert FlowAt(lines, acts, f, i);
        if i > 0 {
          assert g.track[i - 1] == f.track[i - 1] && g.looks[i - 1] == f.looks[i - 1];
        }
      }
    }
  }

  lemma HighestStill(acts: seq<Act>, f: Act, g: Act, look: Look, z: nat)
    requires f.Block? && g.Block? && |f.track| == |f.looks| && Highest(acts, f)
    requires g.looks == f.looks + [look] && g.own == f.own && g.high == z && f.high <= z
    requires forall b: nat :: UsesAt(g, |f.track|, b) && b < |acts| ==> acts[b].ends <= z
    requires z == f.high || exists b: nat :: UsesAt(g, |f.track|, b) && b < |acts| && acts[b].ends == z
    ensures Highest(acts, g)
  {
    forall i: nat, b: nat | UsesAt(g, i, b) && b < |acts| ensures acts[b].ends <= z {
      if i < |f.looks| {
        assert UsesAt(f, i, b);
      }
    }
    if z == f.high && f.high != f.own {
      var i: nat, b: nat :| UsesAt(f, i, b) && b < |acts| && acts[b].ends == f.high;
      assert UsesAt(g, i, b);
    }
  }

  /** What was looked at is in the trace. */
  lemma SeenThere(lines: seq<Line>, acts: seq<Act>, f: Act, i: nat, b: nat)
    requires Partial(lines, acts, f) && SeesAt(f, i, b)
    ensures b < |acts|
  {
    assert LookOk(lines, acts, f, i);
  }

  /** A block that was read in between leaves the outer one as it was. */
  lemma WithinLater(lines: seq<Line>, s0: State, t0: Trace, s1: State, t1: Trace, f: Act, making: set<string>)
    requires Within(lines, s0, t0, f) && Since(s0, t0, s1, t1, making) && s1.active == s0.active
    requires Timed(s0, s1, t1.acts, |t0.acts|, f.rule)
    ensures Within(lines, s1, t1, f)
  {
    Extended(lines, t0.acts, t1.acts, f);
    forall i: nat, b: nat | SeesAt(f, i, b) && b < |t1.acts| && t1.acts[b].failed
      ensures Error in Get(s1, f.rule).flags
    {
      SeenThere(lines, t0.acts, f, i, b);
    }
    var u0, u1 := Get(s0, f.rule).time, Get(s1, f.rule).time;
    if u1 == u0 && Rebound(t0.acts, f.from, f.rule, u0) {
      var j: nat :| f.from <= j < |t0.acts| && t0.acts[j].File? && t0.acts[j].rule == f.rule && t0.acts[j].ends == u0;
      assert t1.acts[j] == t0.acts[j];
    }
  }

  /** One more line that is not done is read. */
  lemma OneMore(lines: seq<Line>, s: State, s1: State, t: Trace, f: Act, g: Act, look: Look, z: nat, stop: nat,
                cmd: seq<string>)
    requires Within(lines, s, t, f) && f.stop < |lines| && !lines[f.stop].Done?
    requires g == Read(f, look, z, stop, cmd)
    requires LookOk(lines, t.acts, g, |f.track|) && stop == After(lines, t.acts, g, |f.track|)
    requires cmd == if f.active && lines[f.stop].Exec? then f.cmd + [lines[f.stop].text] else f.cmd
    requires f.high <= z
    requires forall b: nat :: UsesAt(g, |f.track|, b) && b < |t.acts| ==> t.acts[b].ends <= z
    requires z == f.high || exists b: nat :: UsesAt(g, |f.track|, b) && b < |t.acts| && t.acts[b].ends == z
    requires forall b: nat :: SeesAt(g, |f.track|, b) && b < |t.acts| && t.acts[b].failed ==>
      Error in Get(s1, f.rule).flags
    requires s1.active == s.active && Get(s, f.rule).flags <= Get(s1, f.rule).flags
    requires Get(s1, f.rule).time == Get(s, f.rule).time || (lines[f.stop].Exec? && Get(s1, f.rule).time == 0)
    ensures Within(lines, s1, t, g)
  {
    hide Flows, Highest, LookOk, After, Rebound, Latest, NoneYet, LibsOk, EntersOk;
    Further(lines, t.acts, f, g, look, z, stop, cmd);
    assert g.track[..|g.track| - 1] == f.track && g.track[|f.track|] == f.stop;
    assert |f.looks| == |f.track|;
    hide Partial;
    forall i: nat, b: nat | SeesAt(g, i, b) && b < |t.acts| && t.acts[b].failed ensures Error in Get(s1, f.rule).flags {
      if i < |f.looks| {
        assert SeesAt(f, i, b);
      }
    }
    assert Texts(lines, f.track) != [] ==> Texts(lines, g.track) != [];
  }
}
