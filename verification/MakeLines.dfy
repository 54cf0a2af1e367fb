/**
 What each kind of line keeps while mamake reads a block (src/cmd/INIT/mamake.c:1592-1710).
 */
module MakeLines {
  import opened MakeLog
  import opened MakeTrace
  import opened MakeSteps
  import opened Wrappers

  /** A line that changes the target of its block only. */
  lemma OwnChange(o: Options, lines: seq<Line>, s: State, s1: State, t: Trace, making: set<string>, r: string)
    requires World(o, lines, s, t, making + {r}) && r !in making
    requires Only(s, s1, r)
    requires !o.keepgoing ==> Error !in Get(s1, r).flags
    requires s.pos <= s1.pos <= |lines| && !s1.exited
    ensures World(o, lines, s1, t, making + {r}) && Since(s, t, s1, t, making)
  {
    hide AllFair, Rebound;
    forall q | q !in making + {r} ensures KnownAt(s1, t, q) {
      assert KnownAt(s, t, q);
    }
  }

  /** A line that is not for mamake, or an exec line. */
  lemma PlainLine(o: Options, lines: seq<Line>, s: State, t: Trace, f: Act, making: set<string>)
    returns (s1: State, g: Act)
    requires World(o, lines, s, t, making + {f.rule}) && Within(lines, s, t, f) && f.stop == s.pos < |lines|
    requires f.making == making + {f.rule} && f.rule !in making
    requires lines[s.pos].Other? || lines[s.pos].Exec?
    ensures s1 == (if lines[s.pos].Exec? then Generates(s, f.rule) else s).(pos := s.pos + 1)
    ensures g == Read(f, Nothing, f.high, s.pos + 1,
                      if f.active && lines[s.pos].Exec? then f.cmd + [lines[s.pos].text] else f.cmd)
    ensures World(o, lines, s1, t, making + {f.rule}) && Within(lines, s1, t, g) && Since(s, t, s1, t, making)
  {
    s1 := (if lines[s.pos].Exec? then Generates(s, f.rule) else s).(pos := s.pos + 1);
    var cmd := if f.active && lines[s.pos].Exec? then f.cmd + [lines[s.pos].text] else f.cmd;
    g := Read(f, Nothing, f.high, s.pos + 1, cmd);
    OwnChange(o, lines, s, s1, t, making, f.rule);
    OneMore(lines, s, s1, t, f, g, Nothing, f.high, s.pos + 1, cmd);
  }

  /** make and prev take nothing from a rule that is being made. */
  lemma SkippedLine(o: Options, lines: seq<Line>, s: State, t: Trace, f: Act, making: set<string>)
    returns (s1: State, g: Act)
    requires World(o, lines, s, t, making + {f.rule}) && Within(lines, s, t, f) && f.stop == s.pos < |lines|
    requires f.making == making + {f.rule} && f.rule !in making
    requires lines[s.pos].Make? || lines[s.pos].Prev?
    requires lines[s.pos].rule in f.making
    ensures s1 == s.(pos := s.pos + 1) && g == Read(f, Nothing, f.high, s.pos + 1, f.cmd)
    ensures World(o, lines, s1, t, making + {f.rule}) && Within(lines, s1, t, g) && Since(s, t, s1, t, making)
  {
    s1, g := s.(pos := s.pos + 1), Read(f, Nothing, f.high, s.pos + 1, f.cmd);
    OwnChange(o, lines, s, s1, t, making, f.rule);
    OneMore(lines, s, s1, t, f, g, Nothing, f.high, s.pos + 1, f.cmd);
  }

  /** What a rule that is not being made has to tell. */
  function LookAt(s: State, t: Trace, q: string): Look {
    if q in t.last then Saw(t.last[q], |t.acts|, Ignore in Get(s, q).flags) else Unmade(|t.acts|)
  }

  /** The time taken over from q. */
  function Higher(s: State, q: string, z: nat): nat {
    if Ignore !in Get(s, q).flags && z < Get(s, q).time then Get(s, q).time else z
  }

  function Stain(s: State, r: string, q: string): State {
    if Error in Get(s, q).flags then Mark(s, r, Error) else s
  }

  /** The block of the make line at hand is the last record, and was read up to pos. */
  ghost predicate JustRead(lines: seq<Line>, acts: seq<Act>, f: Act, q: string, pos: nat)
    requires f.Block?
  {
    && f.stop < |lines| && lines[f.stop].Make? && lines[f.stop].rule == q && |acts| > f.from
    && EntersOk(acts, f, Saw(|acts| - 1, |acts|, false), q, f.stop) && acts[|acts| - 1].stop == pos
  }

  /** The end of a make line, the block of which was read, or of a prev line. */
  lemma LookedAt(o: Options, lines: seq<Line>, s: State, t: Trace, f: Act, making: set<string>, q: string)
    returns (s1: State, g: Act)
    requires f.Block? && f.stop < |lines| && f.making == making + {f.rule} && f.rule !in making && q !in f.making
    requires (lines[f.stop] == Prev(q) && s.pos == f.stop + 1) || JustRead(lines, t.acts, f, q, s.pos)
    requires World(o, lines, s, t, making + {f.rule}) && Within(lines, s, t, f) && f.stop < s.pos
    ensures s1 == Stain(s, f.rule, q) && s1.active == s.active && s1.pos == s.pos
    ensures g == Read(f, LookAt(s, t, q), Higher(s, q, f.high), s.pos, f.cmd)
    ensures World(o, lines, s1, t, making + {f.rule}) && Within(lines, s1, t, g) && Since(s, t, s1, t, making)
  {
    hide AllFair, Highest, Flows, Texts, OwnTime, Stained;
    s1 := Stain(s, f.rule, q);
    var look, z := LookAt(s, t, q), Higher(s, q, f.high);
    g := Read(f, look, z, s.pos, f.cmd);
    OwnChange(o, lines, s, s1, t, making, f.rule);
    assert KnownAt(s, t, q);
    if q in t.last && z != f.high {
      assert UsesAt(g, |f.track|, t.last[q]);
    }
    OneMore(lines, s, s1, t, f, g, look, z, s.pos, f.cmd);
  }

  /** One library is bound. */
  lemma BindOne(o: Options, lines: seq<Line>, s: State, t: Trace, making: set<string>, q: string,
                attrs: set<Flag>, found: Option<Found>) returns (s1: State, t1: Trace)
    requires World(o, lines, s, t, making)
    ensures s1 == Bound(Give(s, q, attrs), q, found) && s1.active == s.active && s1.pos == s.pos
    ensures t1.acts == t.acts + [File(q, Get(s1, q).time, Error in Get(s1, q).flags)]
    ensures World(o, lines, s1, t1, making) && Since(s, t, s1, t1, making)
  {
    s1 := Bound(Give(s, q, attrs), q, found);
    var a := File(q, Get(s1, q).time, Error in Get(s1, q).flags);
    t1 := Trace(t.acts + [a], t.last[q := |t.acts|]);
    Recorded(o, lines, t.acts, a);
    hide AllFair, Allowed;
    forall p | p !in making ensures KnownAt(s1, t1, p) {
      assert KnownAt(s, t, p);
    }
    forall p | p in making ensures Spared(s, s1, t1.acts, |t.acts|, p) {
      if p == q {
        assert t1.acts[|t.acts|] == a;
      }
    }
    assert Busy(s1, making) && NoErrors(o, s1) && Known(s1, t1, making);
  }

  lemma Recorded(o: Options, lines: seq<Line>, acts: seq<Act>, a: Act)
    requires AllFair(o, lines, acts) && Fair(o, lines, acts, a)
    ensures AllFair(o, lines, acts + [a])
  {
    hide Fair;
    var more := acts + [a];
    forall i | 0 <= i < |more| ensures Fair(o, lines, more[..i], more[i]) {
      if i < |acts| {
        assert more[..i] == acts[..i] && more[i] == acts[i];
      } else {
        assert more[..i] == acts;
      }
    }
  }

  /** The flags that a line gives leave the rest as it was. */
  lemma Given(o: Options, lines: seq<Line>, s: State, t: Trace, making: set<string>, q: string, attrs: set<Flag>)
    requires World(o, lines, s, t, making) && s.pos < |lines|
    ensures World(o, lines, Give(s.(pos := s.pos + 1), q, attrs), t, making)
    ensures Since(s, t, Give(s.(pos := s.pos + 1), q, attrs), t, making)
  {
    hide AllFair, Allowed;
    var s1 := Give(s.(pos := s.pos + 1), q, attrs);
    forall p | p !in making ensures KnownAt(s1, t, p) {
      assert KnownAt(s, t, p);
    }
    assert Busy(s1, making) && NoErrors(o, s1) && Known(s1, t, making);
  }

  /** The record of a block that ends. */
  function Ending(o: Options, s1: State, s2: State, f: Act): Act
    requires f.Block?
  {
    var before, after := Get(s1, f.rule).time, Get(s2, f.rule).time;
    var out :=
      if f.cmd == [] then Idle
      else if !Due(o, before, f.high) then Fresh
      else if Error in Get(s1, f.rule).flags then Barred
      else Ran(after);
    var flags := Get(Judged(o, s2, f.rule), f.rule).flags;
    f.(track := f.track + [f.stop], looks := f.looks + [Nothing], stop := f.stop + 1, before := before, outcome := out,
      excused := Excused(flags), ends := if out.Barred? || out.Ran? then Max(f.high, after) else f.high,
      failed := Error in flags)
  }

  lemma EndTime(o: Options, s1: State, s2: State, f: Act, shell: Result)
    requires f.Block? && (f.cmd != [] ==> s1.active > 0) && s2 == Acted(o, s1, f.rule, f.cmd, f.high, shell)
    ensures var a := Ending(o, s1, s2, f);
      && a.ends == (if ActionDue(o, s1, f.rule, f.cmd, f.high) then Max(f.high, Get(s2, f.rule).time) else f.high)
      && a.Block? && a.rule == f.rule && a.at == f.at && a.stop == f.stop + 1 && a.making == f.making
         && a.from == f.from
  {
    hide Judged, Acted, Due;
  }

  /** The trace with the record of a block added. */
  function With(t: Trace, a: Act): Trace {
    Trace(t.acts + [a], t.last[a.rule := |t.acts|])
  }

  /** When a block ends fairly, its target is as its record says. */
  lemma Closed(o: Options, lines: seq<Line>, s: State, t: Trace, making: set<string>, a: Act)
    requires World(o, lines, s, t, making + {a.rule}) && a.rule !in making
    requires a.Block? && Fair(o, lines, t.acts, a) && (a.failed <==> Error in Get(s, a.rule).flags)
    ensures World(o, lines, Close(s, a.rule, a.ends), With(t, a), making)
    ensures Since(s, t, Close(s, a.rule, a.ends), With(t, a), making)
  {
    Recorded(o, lines, t.acts, a);
    hide AllFair, Fair, Allowed;
    var s1, t1 := Close(s, a.rule, a.ends), With(t, a);
    forall p | p !in making ensures KnownAt(s1, t1, p) {
      if p != a.rule {
        assert KnownAt(s, t, p);
      }
    }
    assert Busy(s1, making) && NoErrors(o, s1) && Known(s1, t1, making);
  }

  /** The record is fair. */
  lemma FairEnd(o: Options, lines: seq<Line>, s: State, t: Trace, f: Act, making: set<string>, q: string,
                attrs: set<Flag>, shell: Result, s1: State, s2: State)
    requires World(o, lines, s, t, making + {f.rule}) && Within(lines, s, t, f) && f.stop == s.pos < |lines|
    requires lines[s.pos] == Done(q, attrs)
    requires s1 == DoneRead(s, f.rule, q, attrs) && s2 == Acted(o, s1, f.rule, f.cmd, f.high, shell)
    requires !Judged(o, s2, f.rule).exited
    ensures Fair(o, lines, t.acts, Ending(o, s1, s2, f))
  {
    var a := Ending(o, s1, s2, f);
    var g := Read(f, Nothing, f.high, f.stop + 1, f.cmd);
    Further(lines, t.acts, f, g, Nothing, f.high, f.stop + 1, f.cmd);
    SameReading(lines, t.acts, g, a);
    Decision(o, s, f, q, attrs, shell, s1, s2);
    hide Partial, Flows, Highest, LookOk, After, Latest, NoneYet, Decided, Ending, Acted, Judged, AllFair, Known;
    assert a.track == f.track + [f.stop] && a.looks == f.looks + [Nothing] && a.rule == f.rule && a.from == f.from;
    assert a.track[..|a.track| - 1] == f.track;
    assert |f.track| == |f.looks|;
    SameOwnTime(lines, t.acts, f, a, a.before);
    forall i: nat, b: nat | SeesAt(a, i, b) && b < |t.acts| && t.acts[b].failed
      ensures a.failed && !a.outcome.Ran?
    {
      assert i < |f.looks| && SeesAt(f, i, b);
    }
  }

  lemma SameOwnTime(lines: seq<Line>, acts: seq<Act>, f: Act, a: Act, u: nat)
    requires f.Block? && a.Block? && a.rule == f.rule && a.from == f.from && a.own == f.own
    requires |a.track| > 0 && a.track[..|a.track| - 1] == f.track && OwnTime(lines, acts, f, u)
    ensures OwnTime(lines, acts, a, u)
  {
    hide Rebound;
  }

  /** What is decided at the done line. */
  lemma Decision(o: Options, s: State, f: Act, q: string, attrs: set<Flag>, shell: Result, s1: State, s2: State)
    requires f.Block? && NoErrors(o, s) && (f.cmd != [] ==> s.active > 0)
    requires s1 == DoneRead(s, f.rule, q, attrs) && s2 == Acted(o, s1, f.rule, f.cmd, f.high, shell)
    requires !s.exited && !Judged(o, s2, f.rule).exited
    ensures var a := Ending(o, s1, s2, f);
      && Decided(o, a) && (!o.keepgoing ==> !a.failed) && (a.failed || a.excused)
      && a.before == Get(s, f.rule).time && !a.outcome.Unfinished?
      && (Error in Get(s, f.rule).flags ==> a.failed && !a.outcome.Ran?)
  {
    hide Allowed;
    if !o.keepgoing {
      assert Error !in Get(s, f.rule).flags;
      assert Error !in Get(s1, f.rule).flags;
      assert Error !in Get(s2, f.rule).flags;
    }
  }

  lemma SameReading(lines: seq<Line>, acts: seq<Act>, g: Act, a: Act)
    requires Partial(lines, acts, g) && a.Block?
    requires a == g.(before := a.before, outcome := a.outcome, excused := a.excused, ends := a.ends, failed := a.failed)
    ensures Partial(lines, acts, a)
  {
    hide Latest, NoneYet, LibsOk, Texts;
    forall i | 0 <= i < |a.track| ensures LookOk(lines, acts, a, i) {
      assert LookOk(lines, acts, g, i);
    }
    forall i | 0 <= i <= |a.track| ensures FlowAt(lines, acts, a, i) {
      assert FlowAt(lines, acts, g, i);
    }
    forall i: nat, b: nat | UsesAt(a, i, b) && b < |acts| ensures acts[b].ends <= a.high {
      assert UsesAt(g, i, b);
    }
    if a.high != a.own {
      var i: nat, b: nat :| UsesAt(g, i, b) && b < |acts| && acts[b].ends == g.high;
      assert UsesAt(a, i, b);
    }
  }

  /** The record of a block that starts. */
  function Beginning(s: State, t: Trace, making: set<string>, r: string): Act {
    Block(r, making + {r}, s.active > 0, |t.acts|, s.pos, s.pos, [], [], Get(s, r).time, Get(s, r).time, [],
          0, Unfinished, false, 0, false)
  }

  lemma Opened(o: Options, lines: seq<Line>, s: State, t: Trace, making: set<string>, r: string)
    requires World(o, lines, s, t, making) && r !in making
    ensures World(o, lines, Open(s, r), t, making + {r}) && Since(s, t, Open(s, r), t, making)
  {
    hide AllFair;
    var s1 := Open(s, r);
    forall p | p !in making + {r} ensures KnownAt(s1, t, p) {
      assert KnownAt(s, t, p);
    }
    assert Busy(s1, making + {r}) && NoErrors(o, s1) && Known(s1, t, making + {r});
  }

  /** A block starts. */
  lemma Begun(o: Options, lines: seq<Line>, s: State, t: Trace, making: set<string>, r: string, found: Option<Found>)
    requires World(o, lines, s, t, making) && r !in making
    ensures var s1 := Begin(s, r, found);
      World(o, lines, s1, t, making + {r}) && Since(s, t, s1, t, making)
      && Within(lines, s1, t, Beginning(s1, t, making, r))
  {
    var s0, s1 := Open(s, r), Begin(s, r, found);
    Opened(o, lines, s, t, making, r);
    assert Only(s0, s1, r) && (!o.keepgoing ==> Error !in Get(s0, r).flags);
    assert s1.pos == s0.pos <= |lines| && !s1.exited && (!o.keepgoing ==> Error !in Get(s1, r).flags);
    hide World, Since, Begin, Open, Only;
    OwnChange(o, lines, s0, s1, t, making, r);
    Onward(s, t, s0, t, s1, t, making);
    FreshBlock(lines, s1, t, making, r);
  }

  lemma FreshBlock(lines: seq<Line>, s: State, t: Trace, making: set<string>, r: string)
    requires s.pos <= |lines|
    ensures Within(lines, s, t, Beginning(s, t, making, r))
  {
    var f := Beginning(s, t, making, r);
    assert FlowAt(lines, t.acts, f, 0);
    assert Partial(lines, t.acts, f);
  }

  /** A done line changes the target only. */
  lemma OnlyOwn(o: Options, s: State, r: string, q: string, attrs: set<Flag>, cmd: seq<string>, z: nat, shell: Result)
    requires !s.exited && !Judged(o, Acted(o, DoneRead(s, r, q, attrs), r, cmd, z, shell), r).exited
    ensures
      var s3 := Judged(o, Acted(o, DoneRead(s, r, q, attrs), r, cmd, z, shell), r);
      Only(s, s3, r) && s3.pos == s.pos + 1
  {
    var s1 := DoneRead(s, r, q, attrs);
    var s2 := Acted(o, s1, r, cmd, z, shell);
    RunOnly(o, s1, r, cmd, z, shell);
    hide Acted, Allowed;
    assert Only(s, s1, r) && Only(s2, Judged(o, s2, r), r);
  }

  /** A block ends at its done line. */
  lemma Ended(o: Options, lines: seq<Line>, s: State, t: Trace, f: Act, making: set<string>, q: string,
              attrs: set<Flag>, shell: Result)
    requires World(o, lines, s, t, making + {f.rule}) && Within(lines, s, t, f) && f.stop == s.pos < |lines|
    requires lines[s.pos] == Done(q, attrs) && f.rule !in making
    requires
      var s2 := Acted(o, DoneRead(s, f.rule, q, attrs), f.rule, f.cmd, f.high, shell);
      !Judged(o, s2, f.rule).exited
    ensures
      var s1 := DoneRead(s, f.rule, q, attrs);
      var s2 := Acted(o, s1, f.rule, f.cmd, f.high, shell);
      var a := Ending(o, s1, s2, f);
      var s3 := Close(Judged(o, s2, f.rule), f.rule, a.ends);
      && World(o, lines, s3, With(t, a), making) && Since(s, t, s3, With(t, a), making)
      && s3.active == Close(s, f.rule, 0).active && s3.pos == s.pos + 1
  {
    var r := f.rule;
    var s1 := DoneRead(s, r, q, attrs);
    var s2 := Acted(o, s1, r, f.cmd, f.high, shell);
    var s3 := Judged(o, s2, r);
    var a := Ending(o, s1, s2, f);
    FairEnd(o, lines, s, t, f, making, q, attrs, shell, s1, s2);
    OnlyOwn(o, s, r, q, attrs, f.cmd, f.high, shell);
    assert (!o.keepgoing ==> !a.failed) && a.Block? && a.rule == r && (a.failed <==> Error in Get(s3, r).flags);
    assert World(o, lines, s, t, making + {r}) && s3.pos <= |lines|;
    assert Close(s3, r, a.ends).active == Close(s, r, 0).active && Close(s3, r, a.ends).pos == s.pos + 1;
    hide Fair, Within, World, Since, Acted, DoneRead, Judged, Ending;
    OwnChange(o, lines, s, s3, t, making, r);
    Closed(o, lines, s3, t, making, a);
    Onward(s, t, s3, t, Close(s3, r, a.ends), With(t, a), making);
  }

  /** The record of a block the input of which ran out. */
  function Unread(s: State, f: Act): Act
    requires f.Block?
  {
    f.(before := Get(s, f.rule).time, outcome := Unfinished, ends := f.high, failed := Error in Get(s, f.rule).flags)
  }

  lemma RanOut(o: Options, lines: seq<Line>, s: State, t: Trace, f: Act, making: set<string>)
    requires World(o, lines, s, t, making + {f.rule}) && Within(lines, s, t, f) && f.stop == s.pos == |lines|
    requires f.rule !in making
    ensures
      var a := Unread(s, f);
      var s1 := Close(s, f.rule, a.ends);
      World(o, lines, s1, With(t, a), making) && Since(s, t, s1, With(t, a), making)
  {
    hide AllFair, LookOk, Latest, NoneYet, Known;
    var a := Unread(s, f);
    forall i | 0 <= i < |f.track| ensures LookOk(lines, t.acts, a, i) {
      SameLook(lines, t.acts, f, a, i);
    }
    forall i | 0 <= i <= |f.track| ensures FlowAt(lines, t.acts, a, i) {
      assert FlowAt(lines, t.acts, f, i);
    }
    forall i: nat, b: nat | SeesAt(a, i, b) ensures SeesAt(f, i, b) && (UsesAt(a, i, b) ==> UsesAt(f, i, b)) {
    }
    if f.high != f.own {
      var i: nat, b: nat :| UsesAt(f, i, b) && b < |t.acts| && t.acts[b].ends == f.high;
      assert UsesAt(a, i, b);
    }
    Closed(o, lines, s, t, making, a);
  }

  lemma SameLook(lines: seq<Line>, acts: seq<Act>, f: Act, a: Act, i: nat)
    requires f.Block? && i < |f.track| == |f.looks| && f.track[i] < |lines| && LookOk(lines, acts, f, i)
    requires a.Block? && a.track == f.track && a.looks == f.looks
    requires a.making == f.making && a.from == f.from && a.rule == f.rule
    ensures LookOk(lines, acts, a, i)
  {
    hide Latest, NoneYet, LibsOk;
  }

  /** z is the highest of z0 and the times of the records from first on. */
  ghost predicate Highs(acts: seq<Act>, first: nat, z0: nat, z: nat) {
    && z0 <= z
    && (forall b :: first <= b < |acts| ==> acts[b].ends <= z)
    && (z == z0 || exists b :: first <= b < |acts| && acts[b].ends == z)
  }

  ghost predicate AllStained(s: State, acts: seq<Act>, first: nat, r: string) {
    forall b :: first <= b < |acts| && acts[b].failed ==> Error in Get(s, r).flags
  }

  /** One more library of a bind line: its time and its failure are taken over. */
  lemma LibAdded(o: Options, lines: seq<Line>, s0: State, t0: Trace, s: State, t: Trace, s1: State, t1: Trace,
                 making: set<string>, r: string, libs: seq<string>, i: nat, z0: nat, z: nat)
    requires r !in making && i < |libs| && |t.acts| == |t0.acts| + i
    requires World(o, lines, s1, t1, making + {r}) && Since(s, t, s1, t1, making + {r}) && Since(s0, t0, s, t, making)
    requires Timed(s0, s, t.acts, |t0.acts|, r)
    requires t1.acts == t.acts + [File(libs[i], Get(s1, libs[i]).time, Error in Get(s1, libs[i]).flags)]
    requires LibsOk(t.acts, |t0.acts|, Libs(|t0.acts|, i), libs[..i])
    requires Highs(t.acts, |t0.acts|, z0, z) && AllStained(s, t.acts, |t0.acts|, r)
    ensures var s2 := Stain(s1, r, libs[i]);
      && World(o, lines, s2, t1, making + {r}) && Since(s0, t0, s2, t1, making)
      && Timed(s0, s2, t1.acts, |t0.acts|, r)
      && AllStained(s2, t1.acts, |t0.acts|, r)
    ensures LibsOk(t1.acts, |t0.acts|, Libs(|t0.acts|, i + 1), libs[..i + 1])
    ensures Highs(t1.acts, |t0.acts|, z0, Max(z, Get(s1, libs[i]).time))
  {
    var q, s2, first := libs[i], Stain(s1, r, libs[i]), |t0.acts|;
    LibKept(o, lines, s0, t0, s, t, s1, t1, making, r, q);
    assert Spared(s, s1, t1.acts, |t.acts|, r);
    LibListed(t.acts, t1.acts[|t.acts|], first, i, libs);
    LibHighs(t.acts, t1.acts[|t.acts|], first, z0, z);
    hide World, Since, Timed, LibsOk, Highs;
    assert t1.acts == t.acts + [t1.acts[|t.acts|]];
  }

  lemma LibListed(acts: seq<Act>, a: Act, first: nat, i: nat, libs: seq<string>)
    requires i < |libs| && |acts| == first + i && a.File? && a.rule == libs[i]
    requires LibsOk(acts, first, Libs(first, i), libs[..i])
    ensures LibsOk(acts + [a], first, Libs(first, i + 1), libs[..i + 1])
  {
    forall k {:trigger libs[..i + 1][k]} | 0 <= k < i + 1 ensures LibAt(acts + [a], first + k, libs[..i + 1][k]) {
      if k < i {
        assert LibAt(acts, first + k, libs[..i][k]);
      }
    }
  }

  lemma LibHighs(acts: seq<Act>, a: Act, first: nat, z0: nat, z: nat)
    requires first <= |acts| && Highs(acts, first, z0, z)
    ensures Highs(acts + [a], first, z0, Max(z, a.ends))
  {
    var more := acts + [a];
    if a.ends <= z && z != z0 {
      var b :| first <= b < |acts| && acts[b].ends == z;
      assert more[b].ends == z;
    }
    assert more[|acts|] == a;
  }

  lemma LibKept(o: Options, lines: seq<Line>, s0: State, t0: Trace, s: State, t: Trace, s1: State, t1: Trace,
                making: set<string>, r: string, q: string)
    requires r !in making
    requires World(o, lines, s1, t1, making + {r}) && Since(s, t, s1, t1, making + {r}) && Since(s0, t0, s, t, making)
    requires Timed(s0, s, t.acts, |t0.acts|, r)
    ensures var s2 := Stain(s1, r, q);
      World(o, lines, s2, t1, making + {r}) && Since(s0, t0, s2, t1, making) && Timed(s0, s2, t1.acts, |t0.acts|, r)
  {
    var s2, first := Stain(s1, r, q), |t0.acts|;
    OwnChange(o, lines, s1, s2, t1, making, r);
    assert Since(s, t, s1, t1, making);
    Onward(s0, t0, s, t, s1, t1, making);
    Onward(s0, t0, s1, t1, s2, t1, making);
    assert Spared(s, s1, t1.acts, |t.acts|, r);
    hide World;
    assert Get(s2, r).time == Get(s1, r).time;
    if Rebound(t.acts, first, r, Get(s, r).time) {
      var j: nat :| first <= j < |t.acts| && t.acts[j].File? && t.acts[j].rule == r && t.acts[j].ends == Get(s, r).time;
      assert t1.acts[j] == t.acts[j];
    }
  }

  /** A bind line ends. */
  lemma BindLine(o: Options, lines: seq<Line>, s0: State, t0: Trace, s: State, t: Trace, f: Act, z: nat,
                 making: set<string>)
    returns (g: Act)
    requires f.Block? && f.making == making + {f.rule} && f.rule !in making
    requires Within(lines, s0, t0, f) && f.stop < |lines| && lines[f.stop].Bind?
    requires Since(s0, t0, s, t, making) && s.active == s0.active && Timed(s0, s, t.acts, |t0.acts|, f.rule)
    requires |t.acts| == |t0.acts| + |LibsOf(f.rule, lines[f.stop])|
    requires LibsOk(t.acts, |t0.acts|, Libs(|t0.acts|, |t.acts| - |t0.acts|), LibsOf(f.rule, lines[f.stop]))
    requires Highs(t.acts, |t0.acts|, f.high, z) && AllStained(s, t.acts, |t0.acts|, f.rule)
    ensures g == Read(f, Libs(|t0.acts|, |t.acts| - |t0.acts|), z, f.stop + 1, f.cmd)
    ensures Within(lines, s, t, g)
  {
    hide Flows, Highest, Texts, OwnTime, Stained, Timed, Latest, NoneYet, Rebound, Spared;
    var look := Libs(|t0.acts|, |t.acts| - |t0.acts|);
    g := Read(f, look, z, f.stop + 1, f.cmd);
    assert f.from <= |t0.acts|;
    WithinLater(lines, s0, t0, s, t, f, making);
    assert |f.track| == |f.looks|;
    hide Since, Read;
    if z != f.high {
      var b :| |t0.acts| <= b < |t.acts| && t.acts[b].ends == z;
      assert UsesAt(g, |f.track|, b);
    }
    OneMore(lines, s, s, t, f, g, look, z, f.stop + 1, f.cmd);
  }
}
