/**
 make (src/cmd/INIT/mamake.c:1548-1717): the recursive reader of a Mamfile.
 */
module Maker {
  import opened MakeLog
  import opened MakeTrace
  import opened MakeSteps
  import opened MakeLines
  import opened MakeTies
  import opened MakeEnds
  import opened MakeRun
  import opened MakeClaims
  import opened MakeCauses
  import opened MakeStatus
  import opened MakeExit
  import opened Wrappers

  class Maker {
    const env: Env
    var s: State
    ghost var t: Trace
    ghost var l: Logged

    /** The targets named on the command line are active; all are if there are none. */
    constructor (env: Env)
      ensures this.env == env && t == Trace([], map[]) && l == Logged([], []) && Ok({})
      ensures Get(s, "").time == 0 && s.pos == 0
    {
      this.env := env;
      s := State(map q | q in env.targets :: Rule(0, false, 0, {Active}), 0, if env.targets == {} then 1
        else 0, 0, false, false);
      t, l := Trace([], map[]), Logged([], []);
      new;
      AtFirst(env, s);
      StatusFirst(env, s);
    }

    ghost predicate Ok(making: set<string>)
      reads this
    {
      && World(env.options, env.lines, s, t, making) && Told(env, s, t.acts, l, making)
      && Grown(env.lines, t.acts, s.pos) && Status(env, s, t.acts)
    }

    /** A run that ends with an exit was not under -k, and was cut short; its records are fair and tied, and none is
        dropped. */
    ghost predicate Lasting(t0: Trace)
      reads this
    {
      && AllFair(env.options, env.lines, t.acts) && AllTied(env, t.acts, l.ties, l.log)
      && Grown(env.lines, t.acts, s.pos) && t0.acts <= t.acts && !env.options.keepgoing
      && Broken(env, t.acts, l)
    }

    /** A bind line of the block of r, behind its first word: the libraries that it stands for. */
    method BindLibs(r: string, libs: seq<string>, attrs: set<Flag>, z0: nat, ghost making: set<string>) returns (z: nat)
      requires Ok(making + {r}) && r !in making
      requires 0 < s.pos <= |env.lines| && AttrsOf(env.lines[s.pos - 1]) == attrs
      modifies this
      ensures Ok(making + {r}) && Since(old(s), old(t), s, t, making) && s.active == old(s.active)
        && s.pos == old(s.pos)
      ensures Timed(old(s), s, t.acts, |old(t).acts|, r)
      ensures |t.acts| == |old(t).acts| + |libs| && LibsOk(t.acts, |old(t).acts|, Libs(|old(t).acts|, |libs|), libs)
      ensures Highs(t.acts, |old(t).acts|, z0, z) && AllStained(s, t.acts, |old(t).acts|, r)
      ensures LibsTold(env, t.acts, old(l), l, r, s.pos - 1, |old(t).acts|, |libs|)
    {
      hide World, Since, Timed, LibsOk, Highs, AllStained, Bound, Give, Told, LibsTold, Grown, Status;
      z := z0;
      ghost var s0, t0, l0 := s, t, l;
      NoLibs(s0, t0, making, r, libs, z);
      ToldTies(env, s, t.acts, l, making + {r});
      NoLibsTold(env, t.acts, l, r, s.pos - 1);
      var i: nat := 0;
      while i < |libs|
        invariant 0 <= i <= |libs| && |t.acts| == |t0.acts| + i
        invariant Ok(making + {r}) && Since(s0, t0, s, t, making) && s.active == s0.active && s.pos == s0.pos
        invariant Timed(s0, s, t.acts, |t0.acts|, r)
        invariant LibsOk(t.acts, |t0.acts|, Libs(|t0.acts|, i), libs[..i])
        invariant Highs(t.acts, |t0.acts|, z0, z) && AllStained(s, t.acts, |t0.acts|, r)
        invariant LibsTold(env, t.acts, l0, l, r, s.pos - 1, |t0.acts|, i)
      {
        var q := libs[i];
        var found := env.find(s.pos, q);
        ghost var s1, t1 := BindOne(env.options, env.lines, s, t, making + {r}, q, attrs, found);
        LibAdded(env.options, env.lines, s0, t0, s, t, s1, t1, making, r, libs, i, z0, z);
        ghost var l1 := LibTold(env, s, t, l0, l, making + {r}, r, q, s.pos - 1, attrs, |t0.acts|, i, s1, t1);
        GrownFile(env.lines, t.acts, t1.acts[|t.acts|], s.pos);
        StatusLib(env, s, t.acts, r, q, attrs, found, t1.acts[|t.acts|]);
        s, t, l := Stain(Bound(Give(s, q, attrs), q, found), r, q), t1, l1;
        var x := Get(s, q).time;
        if z < x {
          z := x;
        }
        i := i + 1;
      }
      assert libs[..i] == libs;
    }

    /** The block of r is being read, as f and tie record, up to the current line. */
    ghost predicate Reading(r: string, f: Act, tie: Tie, making: set<string>, z: nat, cmd: seq<string>)
      reads this
    {
      && Ok(making + {r}) && Within(env.lines, s, t, f) && Tells(env, t.acts, l, f, tie)
      && f.Block? && f.stop == s.pos <= |env.lines| && z == f.high && cmd == f.cmd
      && f.rule == r && f.making == making + {r} && r !in making && "" in making + {r} && StartsAt(env.lines, r, f.at)
    }

    /** A line was read: g and tie1 record the block then. */
    ghost predicate Went(s0: State, t0: Trace, l0: Logged, f: Act, tie: Tie, g: Act, tie1: Tie, making: set<string>)
      requires f.Block? && g.Block?
      reads this
    {
      && s0.pos < s.pos && s.active == s0.active && Since(s0, t0, s, t, making) && Longer(l0, l)
      && g.rule == f.rule && g.making == f.making && g.from == f.from && g.at == f.at && tie1.start == tie.start
    }

    /** make: unless the rule is being made, its block follows. */
    method MakeLine(q: string, attrs: set<Flag>, r: string, z0: nat, cmd: seq<string>, ghost f: Act, ghost tie: Tie,
                    ghost making: set<string>)
      returns (z: nat, ghost g: Act, ghost tie1: Tie)
      requires Reading(r, f, tie, making, z0, cmd) && s.pos < |env.lines| && env.lines[s.pos] == Line.Make(q, attrs)
      modifies this
      ensures s.exited || (Reading(r, g, tie1, making, z, cmd) && Went(old(s), old(t), old(l), f, tie, g, tie1, making))
      ensures s.exited ==> Lasting(old(t))
      decreases |env.lines| - s.pos, 0
    {
      hide World, Within, Since, Give, Stain, Higher, LookAt, Told, Telling, Longer, Back, Grown, Status;
      Facts(env.options, env.lines, s, t, f, q);
      z, g, tie1 := z0, f, tie;
      ghost var up := making + {r};
      ghost var s0, t0, l0 := s, t, l;
      if Get(s, q).making > 0 {
        ghost var s1, g1 := SkippedLine(env.options, env.lines, s, t, f, making);
        ghost var l1, tie2 := PlainTold(env, s, t, l, f, tie, up, s1, g1);
        GrownLater(env.lines, t.acts, s.pos, s.pos + 1);
        StatusPos(env, s, t.acts, s.pos + 1);
        s, l, g, tie1 := s.(pos := s.pos + 1), l1, g1, tie2;
      } else {
        ghost var s1 := GiveLine(env.options, env.lines, s, t, f, making, q, attrs);
        ghost var l1 := GiveTold(env, s, t, l, up, q, attrs);
        StatusGive(env, s, t.acts, s.pos + 1, q, attrs);
        GrownLater(env.lines, t.acts, s.pos, s.pos + 1);
        s, l := Give(s.(pos := s.pos + 1), q, attrs), l1;
        Make(q, up);
        if s.exited {
          return;
        }
        z := Higher(s, q, z0);
        ghost var s2, g2 := Entered(env.options, env.lines, s0, s1, t0, s, t, f, making, q);
        ghost var l2, tie2 := MakeTold(env.options, env, s0, t0, l0, s1, l1, s, t, l, f, tie, q, attrs, s2, g2);
        StatusStain(env, s, t.acts, r, q);
        s, l, g, tie1 := Stain(s, r, q), l2, g2, tie2;
      }
      Alive(env.options, env.lines, s, t, up);
    }

    /** prev: unless the rule is being made, its time is taken over. */
    method PrevLine(q: string, r: string, z0: nat, cmd: seq<string>, ghost f: Act, ghost tie: Tie,
                    ghost making: set<string>)
      returns (z: nat, ghost g: Act, ghost tie1: Tie)
      requires Reading(r, f, tie, making, z0, cmd) && s.pos < |env.lines| && env.lines[s.pos] == Prev(q)
      modifies this
      ensures Reading(r, g, tie1, making, z, cmd) && Went(old(s), old(t), old(l), f, tie, g, tie1, making)
        && t == old(t)
    {
      hide World, Within, Since, Stain, Higher, LookAt, Told, Telling, Longer, Grown, Status;
      Facts(env.options, env.lines, s, t, f, q);
      GrownLater(env.lines, t.acts, s.pos, s.pos + 1);
      StatusPos(env, s, t.acts, s.pos + 1);
      z := z0;
      if Get(s, q).making > 0 {
        ghost var s1, g1 := SkippedLine(env.options, env.lines, s, t, f, making);
        ghost var l1, tie2 := PlainTold(env, s, t, l, f, tie, making + {r}, s1, g1);
        s, l, g, tie1 := s.(pos := s.pos + 1), l1, g1, tie2;
      } else {
        var next := s.(pos := s.pos + 1);
        z := Higher(next, q, z0);
        ghost var s1, g1 := Looked(env.options, env.lines, s, t, f, making, q);
        ghost var l1, tie2 := PrevTold(env.options, env, s, t, l, f, tie, q, s1, g1);
        StatusStain(env, next, t.acts, r, q);
        s, l, g, tie1 := Stain(next, r, q), l1, g1, tie2;
      }
    }

    /** exec, or a line that is not for mamake. */
    method OwnLine(r: string, z: nat, cmd0: seq<string>, ghost f: Act, ghost tie: Tie, ghost making: set<string>)
      returns (cmd: seq<string>, ghost g: Act, ghost tie1: Tie)
      requires Reading(r, f, tie, making, z, cmd0) && s.pos < |env.lines|
        && (env.lines[s.pos].Exec? || env.lines[s.pos].Other?)
      modifies this
      ensures Reading(r, g, tie1, making, z, cmd) && Went(old(s), old(t), old(l), f, tie, g, tie1, making)
        && t == old(t)
    {
      hide World, Within, Since, Told, Telling, Longer, Grown, Status;
      Facts(env.options, env.lines, s, t, f, r);
      GrownLater(env.lines, t.acts, s.pos, s.pos + 1);
      StatusOwn(env, s, t.acts, r, s.pos + 1);
      ghost var s1, g1 := PlainLine(env.options, env.lines, s, t, f, making);
      ghost var l1, tie2 := PlainTold(env, s, t, l, f, tie, making + {r}, s1, g1);
      cmd := cmd0;
      if env.lines[s.pos].Exec? {
        if s.active > 0 {
          cmd := cmd + [env.lines[s.pos].text];
        }
        s := Generates(s, r);
      }
      s, l, g, tie1 := s.(pos := s.pos + 1), l1, g1, tie2;
    }

    /** bind: the libraries are bound and their times taken over. */
    method BindAll(libs: seq<string>, attrs: set<Flag>, r: string, z0: nat, cmd: seq<string>, ghost f: Act,
                   ghost tie: Tie, ghost making: set<string>)
      returns (z: nat, ghost g: Act, ghost tie1: Tie)
      requires Reading(r, f, tie, making, z0, cmd) && s.pos < |env.lines| && env.lines[s.pos] == Bind(libs, attrs)
      modifies this
      ensures Reading(r, g, tie1, making, z, cmd) && Went(old(s), old(t), old(l), f, tie, g, tie1, making)
    {
      hide World, Within, Since, Told, Telling, LibsTold, Grown, Status;
      ghost var s0, t0, l0, s1 := s, t, l, s.(pos := s.pos + 1);
      NextLine(env.options, env.lines, s, t, f, making);
      ToldPos(env, s, t.acts, l, making + {r}, s1);
      ToldTies(env, s, t.acts, l, making + {r});
      GrownLater(env.lines, t.acts, s.pos, s.pos + 1);
      StatusPos(env, s, t.acts, s.pos + 1);
      s := s.(pos := s.pos + 1);
      z := BindLibs(r, LibsOf(r, env.lines[s.pos - 1]), attrs, z0, making);
      g := BindLine(env.options, env.lines, s1, t0, s, t, f, z, making);
      SinceActs(s1, t0, s, t, making);
      LibsLonger(env, t.acts, l0, l, r, s.pos - 1, |t0.acts|, |t.acts| - |t0.acts|);
      tie1 := BindTold(env, s1, t0, l0, f, tie, t, l, g);
      Onward(s0, t0, s1, t0, s, t, making);
    }

    /** The done line of r: its action is run if it is due, and it must be there then. */
    method DoneLine(q: string, attrs: set<Flag>, r: string, z0: nat, cmd: seq<string>, ghost f: Act, ghost tie: Tie,
                    ghost making: set<string>)
      requires Reading(r, f, tie, making, z0, cmd) && s.pos < |env.lines| && env.lines[s.pos] == Done(q, attrs)
      modifies this
      ensures s.exited || (Ok(making) && Since(old(s), old(t), s, t, making) && s.pos == old(s.pos) + 1)
      ensures s.exited || s.active == Close(old(s), r, 0).active
      ensures s.exited ==> Lasting(old(t))
      ensures s.exited || (Returned(t, f.from, r, f.at, s.pos, making) && Longer(old(l), l) && Back(t, l, tie.start))
    {
      hide World, Within, Since, DoneRead, Run, Judged, Ending, Close, Due, Told, Telling, Longer, Back, Grown, Status;
      Facts(env.options, env.lines, s, t, f, r);
      ToldTies(env, s, t.acts, l, making + {r});
      var z := z0;
      var s1 := DoneRead(s, r, q, attrs);
      SameActive(s, r, q, attrs);
      DonePos(env.options, s, r, q, attrs);
      GrownLater(env.lines, t.acts, s.pos, s.pos + 1);
      Exits(env, s, t, l, f, tie, making, q, attrs, s1, Acted(env.options, s1, r, cmd, z0, env.shell(s.pos)));
      var s2 := s1;
      if cmd != [] && s1.active > 0 && Due(env.options, Get(s1, r).time, z) {
        s2 := Run(env.options, s1, r, cmd, env.shell(s.pos));
        RunPos(env.options, s1, r, cmd, env.shell(s.pos));
        if s2.exited {
          s := s2;
          return;
        }
        var x := Get(s2, r).time;
        if z < x {
          z := x;
        }
      }
      var s3 := Judged(env.options, s2, r);
      DonePos(env.options, s2, r, q, attrs);
      if s3.exited {
        s := s3;
        return;
      }
      Ended(env.options, env.lines, s, t, f, making, q, attrs, env.shell(s.pos));
      EndTime(env.options, s1, s2, f, env.shell(s.pos));
      ghost var l1 := DoneTold(env, s, t, l, f, tie, making, q, attrs, s1, s2);
      ghost var a := Ending(env.options, s1, s2, f);
      assert z == a.ends;
      DoneGrown(env.lines, t.acts, env.options, s1, s2, f, s.pos);
      StatusDone(env, s, t.acts, q, attrs, f, s1, s2);
      s, t, l := Close(s3, r, z), With(t, a), l1;
      Alive(env.options, env.lines, s, t, making);
    }

    /** The block of r, up to its done line. */
    method Make(r: string, ghost making: set<string>)
      requires Ok(making) && r !in making && (r == "" || "" in making) && (r == "" ==> Get(s, "").time == 0)
      requires StartsAt(env.lines, r, s.pos)
      modifies this
      ensures s.exited || (Ok(making) && Since(old(s), old(t), s, t, making) && s.active == old(s.active))
      ensures s.exited || (Returned(t, |old(t).acts|, r, old(s.pos), s.pos, making) && Longer(old(l), l)
                           && Back(t, l, |old(l).log|))
      ensures s.exited ==> Lasting(old(t))
      decreases |env.lines| - s.pos, 1
    {
      hide World, Within, Since, Begin, Unread, Close, Beginning, Told, Telling, Longer, Back, Grown, Status;
      ghost var s00, t00, l00 := s, t, l;
      AtBegin(env.options, env.lines, s, t, making, r, env.find(s.pos, r));
      Begun(env.options, env.lines, s, t, making, r, env.find(s.pos, r));
      ghost var l1, tie := TellBegin(env, s, t, l, making, r);
      LongerLog(l, l1);
      StatusBegin(env, s, t.acts, r, env.find(s.pos, r));
      s, l := Begin(s, r, env.find(s.pos, r)), l1;
      var z: nat := if r != "" then Get(s, r).time else 0;
      var cmd: seq<string> := [];
      ghost var f := Beginning(s, t, making, r);
      while s.pos < |env.lines|
        invariant Reading(r, f, tie, making, z, cmd) && f.from == |t00.acts| && f.at == s00.pos
        invariant tie.start == |l00.log| && Longer(l00, l)
        invariant Since(s00, t00, s, t, making) && s.active == Begin(s00, r, env.find(s00.pos, r)).active
        decreases |env.lines| - s.pos
      {
        ghost var s0, t0, l0 := s, t, l;
        match env.lines[s.pos] {
        case Make(q, attrs) =>
          z, f, tie := MakeLine(q, attrs, r, z, cmd, f, tie, making);
          if s.exited {
            Lasts(env.options, env.lines, s00, t00, s0, t0, making, making + {r});
            return;
          }
        case Prev(q) =>
          z, f, tie := PrevLine(q, r, z, cmd, f, tie, making);
        case Bind(libs, attrs) =>
          z, f, tie := BindAll(libs, attrs, r, z, cmd, f, tie, making);
        case Done(q, attrs) =>
          DoneLine(q, attrs, r, z, cmd, f, tie, making);
          if s.exited {
            Lasts(env.options, env.lines, s00, t00, s0, t0, making, making + {r});
          } else {
            Onward(s00, t00, s0, t0, s, t, making);
            LongerStill(l00, l0, l);
            Restored(s00, t00, s0, t0, r, env.find(s00.pos, r), making, 0);
            Alive(env.options, env.lines, s, t, making);
          }
          return;
        case _ =>
          cmd, f, tie := OwnLine(r, z, cmd, f, tie, making);
        }
        Onward(s00, t00, s0, t0, s, t, making);
        LongerStill(l00, l0, l);
      }
      Facts(env.options, env.lines, s, t, f, r);
      RanOut(env.options, env.lines, s, t, f, making);
      ghost var s1, t1 := s, t;
      ghost var a := Unread(s, f);
      Restored(s00, t00, s, t, r, env.find(s00.pos, r), making, z);
      AtEnd(s, f);
      ghost var l2 := UnreadTold(env, s, t, l, f, tie, making);
      GrownBlock(env.lines, t.acts, a, s.pos);
      StatusUnread(env, s, t.acts, f, z);
      LongerStill(l00, l, l2);
      s, t, l := Close(s, r, z), With(t, a), l2;
      Onward(s00, t00, s1, t1, s, t, making);
      Alive(env.options, env.lines, s, t, making);
    }

    /** The whole Mamfile, as the block of the nameless rule. Every run ends with a trace that is fair and tied to
        its log, and so to the files, the shell, the attributes and the targets. Under -k it does not end early: the
        last record is of the whole file then, as far as it was read. */
    method Mamfile()
      requires Ok({}) && Get(s, "").time == 0
      modifies this
      ensures AllFair(env.options, env.lines, t.acts) && AllTied(env, t.acts, l.ties, l.log)
      ensures Grown(env.lines, t.acts, s.pos) && old(t).acts <= t.acts
      ensures s.exited ==> !env.options.keepgoing && Broken(env, t.acts, l)
      ensures s.exited || (Ok({}) && Returned(t, |old(t).acts|, "", old(s.pos), s.pos, {}) && Back(t, l, |old(l).log|))
    {
      ghost var s0, t0 := s, t;
      Make("", {});
      if !s.exited {
        ToldTies(env, s, t.acts, l, {});
        Lasts(env.options, env.lines, s0, t0, s, t, {}, {});
      }
    }

    /** verify, for each rule: a target that is left over fails, whatever the options. */
    method Verify()
      modifies this`s
      ensures s.errors == old(s.errors) + |Leftovers(old(s))|
      ensures forall q :: var was := Get(old(s), q);
        Get(s, q) == if Active in was.flags && Error !in was.flags && Made !in was.flags
          then was.(flags := was.flags + {Error}) else was
      ensures s == old(s).(rules := s.rules, errors := s.errors)
    {
      hide Get, Leftover, Leftovers, Failing, Verified;
      ghost var s0 := s;
      var todo := s.rules.Keys;
      NoneVerified(s);
      while todo != {}
        invariant todo <= s0.rules.Keys && Verified(s0, s, s0.rules.Keys - todo)
        decreases todo
      {
        var q :| q in todo;
        ghost var walked := s0.rules.Keys - todo;
        OneVerified(s0, s, walked, q);
        assert s0.rules.Keys - (todo - {q}) == walked + {q};
        if Leftover(s, q) {
          s := MakeSteps.Mark(s, q, Error).(errors := s.errors + 1);
        }
        todo := todo - {q};
      }
      AllVerified(s0, s);
      LeftoversAre(s0);
    }
  }

  /** A run of mamake that does not recurse (src/cmd/INIT/mamake.c:2357-2374). The claims of MakeClaims hold of
      what it leaves, and under -k, when it reads the whole Mamfile, so do those of MakeCauses. The exit status
      is not 0 exactly if something is amiss. */
  method MakeAll(env: Env) returns (m: Maker, status: nat)
    ensures fresh(m) && m.env == env && Sound(env, m.t.acts, m.l.ties, m.l.log)
    ensures Grown(env.lines, m.t.acts, m.s.pos)
    ensures m.s.exited ==> !env.options.keepgoing && Broken(env, m.t.acts, m.l)
    ensures m.s.exited || env.options.keepgoing || forall a: nat :: a < |m.t.acts| ==> !Culprit(env, m.t.acts[a])
    ensures m.s.exited || (Whole(m.t.acts, m.l.ties, m.l.log) && Outermost(m.t.acts[|m.t.acts| - 1]))
    ensures status == if m.s.exited || Amiss(env, m.t.acts) then 1 else 0
  {
    m := new Maker(env);
    hide World, Told, Amiss, Status, Broken, Culprit, AllFair, AllTied, Grown;
    m.Mamfile();
    if m.s.exited {
      return m, 1;
    }
    ghost var s1 := m.s;
    EndFacts(env, m.s, m.t.acts, m.l);
    if !env.options.keepgoing {
      AllRight(env, m.s, m.t, m.l);
    }
    if m.s.active == 0 && !m.s.verified {
      m.Verify();
    }
    ErrorsAre(env, s1, m.t.acts, m.s.errors);
    status := if m.s.errors != 0 then 1 else 0;
  }
}
