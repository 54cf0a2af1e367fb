/**
 The log of a run of mamake is accounted for by its records: every flag given, every look for a file,
 every action, every failure is that of a record. So no action is run but by a block that has to, and
 no failure comes without an action that went wrong or a target that is not there
 (src/cmd/INIT/mamake.c:341-357, 1180-1277, 1548-1717).
 */
module MakeCauses {
  import opened MakeLog
  import opened MakeTrace
  import opened MakeClaims

  /** The record had looked at one that failed, when the log was at m. */
  ghost predicate Seen(acts: seq<Act>, ties: seq<Tie>, f: Act, m: nat) {
    |ties| == |acts| && exists i: nat, c: nat :: SeesAt(f, i, c) && c < |acts| && acts[c].failed && ties[c].finish <= m
  }

  /** Line k of a block of r gives its attributes to q. */
  predicate GivesTo(l: Line, r: string, q: string) {
    match l
    case Make(p, _) => q == p
    case Done(_, _) => q == r
    case _ => false
  }

  /** A block runs its action, if it does, right after its last line. */
  function RunsAt(t: Tie): nat {
    if t.whens == [] then t.start else t.whens[|t.whens| - 1]
  }

  /** Event m is what the record makes of it: one of its lines, its target, its action or its end. */
  ghost predicate Owns(env: Env, acts: seq<Act>, ties: seq<Tie>, log: seq<Event>, f: Act, t: Tie, m: nat) {
    && m < |log| && log[m].rule == (if log[m].Attributed? then log[m].rule else f.rule)
    && match log[m]
       case Attributed(q, k) =>
         if f.File? then q == f.rule
         else k in f.track && k < |env.lines| && GivesTo(env.lines[k], f.rule, q)
       case LookedFor(_, pos) => if f.File? then m == t.start + 1 else m == t.start && pos == f.at
       case Regenerated(_, k) => f.Block? && k in f.track && k < |env.lines| && env.lines[k].Exec?
       case RanAction(_, k, shelled) =>
         && f.Block? && f.outcome.Ran? && f.stop == k + 1 && f.cmd != [] && shelled == Executes(env.options, f.cmd)
         && m == RunsAt(t)
       case MarkedFailed(_) => f.Block? && (Seen(acts, ties, f, m) || Culprit(env, f))
       case Finished(_, time) => f.Block? && time == f.ends && m + 1 == t.finish
  }

  /** Event m is that of an earlier record. */
  ghost predicate Inner(acts: seq<Act>, ties: seq<Tie>, m: nat) {
    |ties| == |acts| && exists c: nat :: Spans(acts, ties, c, m)
  }

  ghost predicate Spans(acts: seq<Act>, ties: seq<Tie>, c: nat, m: nat) {
    c < |acts| == |ties| && ties[c].start <= m < ties[c].finish
  }

  /** The line of the block at which event m came. */
  lemma {:induction false} LineOf(env: Env, acts: seq<Act>, ties: seq<Tie>, log: seq<Event>, f: Act, t: Tie, m: nat,
                                  n: nat)
    returns (i: nat)
    requires f.Block? && |f.track| == |f.looks| == |t.whens| && Steps(env, acts, ties, log, f, t)
    requires n <= |t.whens| && Clock(f, t, 0) <= m < Clock(f, t, n)
    ensures i < n && Clock(f, t, i) <= m < t.whens[i]
  {
    hide Step;
    if Clock(f, t, n - 1) <= m {
      i := n - 1;
    } else {
      i := LineOf(env, acts, ties, log, f, t, m, n - 1);
    }
  }

  /** The library of a bind line at which event m came. */
  lemma {:induction false} LibOf(acts: seq<Act>, ties: seq<Tie>, log: seq<Event>, r: string, k: nat, c: nat,
                                 first: nat, m: nat, n: nat)
    returns (j: nat)
    requires |acts| == |ties| && first + n <= |acts| && n > 0
    requires forall j :: 0 <= j < n ==> LibTied(acts, ties, log, r, k, c, first, j)
    requires c <= m < Behind(acts, ties, first + n - 1)
    ensures j < n && ties[first + j].start <= m < Behind(acts, ties, first + j)
  {
    assert LibTied(acts, ties, log, r, k, c, first, n - 1);
    if ties[first + n - 1].start <= m {
      j := n - 1;
    } else {
      j := LibOf(acts, ties, log, r, k, c, first, m, n - 1);
    }
  }

  /** What came while line i was read is of the block or of a record that the line brought. */
  lemma LineOwns(env: Env, acts: seq<Act>, ties: seq<Tie>, log: seq<Event>, f: Act, t: Tie, i: nat, m: nat)
    requires f.Block? && i < |f.track| == |f.looks| == |t.whens| && f.track[i] < |env.lines|
    requires Step(env, acts, ties, log, f, t, i) && Clock(f, t, i) <= m < t.whens[i]
    ensures Owns(env, acts, ties, log, f, t, m) || Inner(acts, ties, m)
  {
    hide HasFlag, Culprit;
    var k, look := f.track[i], f.looks[i];
    assert k in f.track;
    match env.lines[k] {
      case Make(_, _) =>
        if m == ties[look.act].finish {
          assert SeesAt(f, i, look.act);
        } else if m > Clock(f, t, i) {
          assert Spans(acts, ties, look.act, m);
        }
      case Prev(_) => assert SeesAt(f, i, look.act);
      case Bind(_, _) =>
        var j := LibOf(acts, ties, log, f.rule, k, Clock(f, t, i), look.first, m, look.many);
        var b := look.first + j;
        assert LibTied(acts, ties, log, f.rule, k, Clock(f, t, i), look.first, j);
        assert SeesAt(f, i, b);
        if m < ties[b].finish {
          assert Spans(acts, ties, b, m);
        }
      case _ =>
    }
  }

  lemma DoneOwns(env: Env, acts: seq<Act>, ties: seq<Tie>, log: seq<Event>, f: Act, t: Tie, k: nat, decided: nat,
                 m: nat)
    requires f.Block? && !f.outcome.Unfinished? && f.stop == k + 1 && DoneTied(env, log, f, t, k, decided)
    requires decided <= m < t.finish <= |log| && decided == RunsAt(t)
    ensures Owns(env, acts, ties, log, f, t, m)
  {
    hide HasFlag, IsExcused, Executes, TimeAfter, Seen, GivesTo, ActionTime;
  }

  /** What came after the lines of a block is of the block. */
  lemma EndOwns(env: Env, acts: seq<Act>, ties: seq<Tie>, log: seq<Event>, f: Act, t: Tie, m: nat)
    requires f.Block? && Tied(env, acts, ties, log, f, t) && Fair(env.options, env.lines, acts, f)
    requires Clock(f, t, |t.whens|) <= m < t.finish
    ensures Owns(env, acts, ties, log, f, t, m)
  {
    hide Fair, Head, Steps, HadFailed, SawFailed, DoneTied, Seen, GivesTo;
    if !f.outcome.Unfinished? {
      StopsBehindDone(env, acts, f);
      hide Owns;
      DoneOwns(env, acts, ties, log, f, t, f.track[|f.track| - 1], Clock(f, t, |t.whens|), m);
    }
  }

  lemma RecordOwns(env: Env, acts: seq<Act>, ties: seq<Tie>, log: seq<Event>, f: Act, t: Tie, m: nat)
    requires Tied(env, acts, ties, log, f, t) && Fair(env.options, env.lines, acts, f) && t.start <= m < t.finish
    ensures Owns(env, acts, ties, log, f, t, m) || Inner(acts, ties, m)
  {
    if f.Block? {
      if m >= Clock(f, t, |t.whens|) {
        EndOwns(env, acts, ties, log, f, t, m);
      } else if m >= Clock(f, t, 0) {
        hide Fair, Step, Owns, DoneTied, Head, Inner;
        var i := LineOf(env, acts, ties, log, f, t, m, |t.whens|);
        LineOwns(env, acts, ties, log, f, t, i, m);
      } else {
        hide Fair, Steps, DoneTied, HasFlag, Inner, TimeAfter;
        assert m == t.start;
      }
    }
  }

  // The whole log.

  /** Event m of the log is that of record b. */
  ghost predicate Accounts(env: Env, acts: seq<Act>, ties: seq<Tie>, log: seq<Event>, b: nat, m: nat) {
    Spans(acts, ties, b, m) && Owns(env, acts[..b], ties[..b], log, acts[b], ties[b], m)
  }

  /** Every event that came while a record was made is of that record or of one made in between. */
  lemma {:induction false} Accounted(env: Env, acts: seq<Act>, ties: seq<Tie>, log: seq<Event>, a: nat, m: nat)
    returns (b: nat)
    requires Sound(env, acts, ties, log) && Spans(acts, ties, a, m)
    ensures b <= a && Accounts(env, acts, ties, log, b, m)
    decreases a
  {
    hide Sound, Fair, Tied, Owns;
    RecordIs(env, acts, ties, log, a);
    var log1 := log[..ties[a].finish];
    RecordOwns(env, acts[..a], ties[..a], log1, acts[a], ties[a], m);
    if Owns(env, acts[..a], ties[..a], log1, acts[a], ties[a], m) {
      SameOwner(env, acts[..a], ties[..a], log1, log, acts[a], ties[a], m);
      b := a;
    } else {
      var c: nat :| Spans(acts[..a], ties[..a], c, m);
      assert acts[..a][c] == acts[c] && ties[..a][c] == ties[c];
      b := Accounted(env, acts, ties, log, c, m);
    }
  }

  lemma SameOwner(env: Env, acts: seq<Act>, ties: seq<Tie>, log: seq<Event>, more: seq<Event>, f: Act, t: Tie, m: nat)
    requires Owns(env, acts, ties, log, f, t, m) && log <= more
    ensures Owns(env, acts, ties, more, f, t, m)
  {
    hide Seen, Culprit, Executes, GivesTo;
    assert more[m] == log[m];
  }

  /** The last record is the one of the whole Mamfile, and the log is all of its making. */
  ghost predicate Whole(acts: seq<Act>, ties: seq<Tie>, log: seq<Event>) {
    |ties| == |acts| > 0 && acts[|acts| - 1].Block? && ties[|acts| - 1].start == 0 && ties[|acts| - 1].finish == |log|
  }

  /** The record is of the whole Mamfile, as the block of the nameless rule. */
  predicate Outermost(f: Act) {
    f.Block? && f.rule == "" && f.at == 0 && f.making == {""}
  }

  /** No action is run but by a block that has to, and but once. */
  lemma ActionsAccounted(env: Env, acts: seq<Act>, ties: seq<Tie>, log: seq<Event>, m: nat) returns (b: nat)
    requires Sound(env, acts, ties, log) && Whole(acts, ties, log) && m < |log| && log[m].RanAction?
    ensures b < |acts| && acts[b].Block? && acts[b].outcome.Ran? && acts[b].rule == log[m].rule
      && acts[b].stop == log[m].pos + 1
    ensures b < |ties| && m == RunsAt(ties[b]) && acts[b].cmd != []
      && (log[m].shelled <==> if "mamake -r " <= acts[b].cmd[0] then !env.options.never else env.options.exec)
    ensures ties[b].start <= |log| && Wanted(env, acts[b])
    ensures env.options.force || !IsNewest(env, acts, ties, log, b, acts[b].before)
    ensures !FailedBefore(env, acts, ties, log, b) && !SawFailure(acts, b)
  {
    b := Accounted(env, acts, ties, log, |acts| - 1, m);
    hide Sound, Seen, Culprit, GivesTo, IsNewest, Wanted, FailedBefore, SawFailure;
    RunExactlyIf(env, acts, ties, log, b);
  }

  /** A record that failed, but did not go wrong itself, comes behind the mark of a failure. */
  lemma Marked(env: Env, acts: seq<Act>, ties: seq<Tie>, log: seq<Event>, f: Act, t: Tie) returns (m: nat)
    requires Tied(env, acts, ties, log, f, t) && Fair(env.options, env.lines, acts, f) && f.failed && !Culprit(env, f)
    ensures m < t.finish == |log| && log[m].MarkedFailed?
  {
    if f.File? {
      m := Mark(env, log, f.rule);
    } else {
      BlockFails(env, acts, ties, log, f, t);
      hide Culprit, DoneTied, Head, Step, Flows, Highest, Texts, LookOk, Decided, Reads, OwnTime, Fails, HasFlag;
      if HadFailed(env, log, f, t) {
        m := Mark(env, log[..t.start], f.rule);
      } else {
        var i: nat, c: nat :| SeesAt(f, i, c) && c < |acts| && acts[c].failed;
        assert Step(env, acts, ties, log, f, t, i) && LookOk(env.lines, acts, f, i);
        LookShape(env.lines, acts, f, i);
        m := StepMarks(env, acts, ties, log, f, t, i, c);
      }
    }
  }

  lemma LookShape(lines: seq<Line>, acts: seq<Act>, f: Act, i: nat)
    requires f.Block? && i < |f.track| == |f.looks| && f.track[i] < |lines| && LookOk(lines, acts, f, i)
    ensures lines[f.track[i]].Bind? <==> f.looks[i].Libs?
    ensures f.looks[i].Saw? ==> lines[f.track[i]].Make? || lines[f.track[i]].Prev?
  {
  }

  lemma Mark(env: Env, log: seq<Event>, q: string) returns (m: nat)
    requires HasFlag(env, log, q, Error)
    ensures m < |log| && log[m].MarkedFailed?
  {
    m :| m < |log| && log[m].rule == q && Gives(env, log[m], Error);
  }

  lemma StepMarks(env: Env, acts: seq<Act>, ties: seq<Tie>, log: seq<Event>, f: Act, t: Tie, i: nat, c: nat)
    returns (m: nat)
    requires f.Block? && i < |f.track| == |f.looks| == |t.whens| && f.track[i] < |env.lines|
    requires Step(env, acts, ties, log, f, t, i) && SeesAt(f, i, c) && c < |acts| && acts[c].failed
    requires env.lines[f.track[i]].Bind? <==> f.looks[i].Libs?
    requires f.looks[i].Saw? ==> env.lines[f.track[i]].Make? || env.lines[f.track[i]].Prev?
    ensures m < |log| && log[m].MarkedFailed?
  {
    hide HasFlag;
    m := 0;
    match env.lines[f.track[i]] {
      case Make(_, _) => m := ties[c].finish;
      case Prev(_) => m := Clock(f, t, i);
      case Bind(_, _) =>
        m := ties[c].finish;
        assert LibTied(acts, ties, log, f.rule, f.track[i], Clock(f, t, i), f.looks[i].first, c - f.looks[i].first);
      case _ => assert false;
    }
  }

  /** Behind the mark of a failure there is a record that went wrong itself. */
  lemma {:induction false} CulpritBehind(env: Env, acts: seq<Act>, ties: seq<Tie>, log: seq<Event>, m: nat)
    returns (b: nat)
    requires Sound(env, acts, ties, log) && Whole(acts, ties, log) && m < |log| && log[m].MarkedFailed?
    ensures b < |acts| && Culprit(env, acts[b])
    decreases m
  {
    hide Culprit, Fair, Tied;
    b := Accounted(env, acts, ties, log, |acts| - 1, m);
    if !Culprit(env, acts[b]) {
      var i: nat, c: nat :| SeesAt(acts[b], i, c) && c < b && acts[..b][c].failed && ties[..b][c].finish <= m;
      assert acts[c] == acts[..b][c] && ties[c] == ties[..b][c];
      hide Sound;
      if Culprit(env, acts[c]) {
        b := c;
      } else {
        RecordIs(env, acts, ties, log, c);
        var m' := Marked(env, acts[..c], ties[..c], log[..ties[c].finish], acts[c], ties[c]);
        b := CulpritBehind(env, acts, ties, log, m');
      }
    }
  }

  /** A run under -k has a failure exactly if an action went wrong or a target was not there and not
      excused. */
  lemma FailsOnlyWithCause(env: Env, acts: seq<Act>, ties: seq<Tie>, log: seq<Event>)
    requires Sound(env, acts, ties, log) && Whole(acts, ties, log)
    ensures (exists a :: 0 <= a < |acts| && acts[a].failed) <==> (exists b :: 0 <= b < |acts| && Culprit(env, acts[b]))
  {
    hide Culprit, Fair, Tied, Sound;
    if a :| 0 <= a < |acts| && acts[a].failed {
      if !Culprit(env, acts[a]) {
        RecordIs(env, acts, ties, log, a);
        var m := Marked(env, acts[..a], ties[..a], log[..ties[a].finish], acts[a], ties[a]);
        var b := CulpritBehind(env, acts, ties, log, m);
      }
    }
    if b :| 0 <= b < |acts| && Culprit(env, acts[b]) {
      CulpritFails(env, acts, ties, log, b);
    }
  }

  lemma CulpritFails(env: Env, acts: seq<Act>, ties: seq<Tie>, log: seq<Event>, b: nat)
    requires Sound(env, acts, ties, log) && b < |acts| && Culprit(env, acts[b])
    ensures acts[b].failed
  {
    FailsExactlyIf(env, acts, ties, log, b);
  }
}
