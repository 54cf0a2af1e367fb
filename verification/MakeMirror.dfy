/**
 The rules in the state of mamake are at all times what the log of events says
 (src/cmd/INIT/mamake.c:341-357, 1021-1036, 1180-1280, 1393-1426).
 */
module MakeMirror {
  import opened MakeLog
  import opened MakeTrace
  import opened MakeSteps
  import opened Wrappers

  ghost predicate MirrorAt(env: Env, s: State, log: seq<Event>, q: string) {
    var r := Get(s, q);
    && r.time == TimeAfter(env, log, q) && r.path == Lower(env, log, q)
    && forall flag :: flag != Made ==> (flag in r.flags <==> HasFlag(env, log, q, flag))
  }

  ghost predicate Mirrors(env: Env, s: State, log: seq<Event>) {
    forall q :: MirrorAt(env, s, log, q)
  }

  /** One more event. */
  lemma Appended(env: Env, log: seq<Event>, e: Event, q: string)
    ensures (log + [e])[..|log|] == log && (log + [e])[|log|] == e
    ensures forall flag ::
      HasFlag(env, log + [e], q, flag) <==> HasFlag(env, log, q, flag) || (e.rule == q && Gives(env, e, flag))
    ensures e.rule != q ==>
      TimeAfter(env, log + [e], q) == TimeAfter(env, log, q) && Lower(env, log + [e], q) == Lower(env, log, q)
  {
    var more := log + [e];
    assert more[..|log|] == log && more[|log|] == e;
    forall flag
      ensures HasFlag(env, more, q, flag) <==> HasFlag(env, log, q, flag) || (e.rule == q && Gives(env, e, flag))
    {
      if i :| 0 <= i < |log| && log[i].rule == q && Gives(env, log[i], flag) {
        assert more[i] == log[i];
      }
      if i :| 0 <= i < |more| && more[i].rule == q && Gives(env, more[i], flag) {
        assert i < |log| ==> log[i] == more[i];
      }
      assert more[|log|].rule == e.rule;
    }
  }

  /** Rules that an event is not about stay as they were. */
  lemma OthersSame(env: Env, s: State, s1: State, log: seq<Event>, e: Event)
    requires Mirrors(env, s, log) && forall q :: q != e.rule ==> Get(s1, q) == Get(s, q)
    requires MirrorAt(env, s1, log + [e], e.rule)
    ensures Mirrors(env, s1, log + [e])
  {
    forall q ensures MirrorAt(env, s1, log + [e], q) {
      if q != e.rule {
        assert MirrorAt(env, s, log, q);
        Appended(env, log, e, q);
      }
    }
  }

  predicate Alike(r: Rule, r1: Rule) {
    r1.time == r.time && r1.path == r.path && r1.flags - {Made} == r.flags - {Made}
  }

  /** A change that the log does not tell of. */
  lemma Unlogged(env: Env, s: State, s1: State, log: seq<Event>)
    requires Mirrors(env, s, log)
    requires forall q :: Alike(Get(s, q), Get(s1, q))
    ensures Mirrors(env, s1, log)
  {
    forall q ensures MirrorAt(env, s1, log, q) {
      assert MirrorAt(env, s, log, q);
      forall flag | flag != Made ensures flag in Get(s1, q).flags <==> flag in Get(s, q).flags {
        assert flag in Get(s1, q).flags - {Made} <==> flag in Get(s, q).flags - {Made};
      }
    }
  }

  lemma MirrorGive(env: Env, s: State, log: seq<Event>, q: string, k: nat)
    requires Mirrors(env, s, log) && k < |env.lines|
    ensures Mirrors(env, Give(s, q, AttrsOf(env.lines[k])), log + [Attributed(q, k)])
  {
    hide Allowed, HasFlag;
    var e := Attributed(q, k);
    assert MirrorAt(env, s, log, q);
    Appended(env, log, e, q);
    OthersSame(env, s, Give(s, q, AttrsOf(env.lines[k])), log, e);
  }

  lemma MirrorBind(env: Env, s: State, log: seq<Event>, q: string, pos: nat)
    requires Mirrors(env, s, log)
    ensures Mirrors(env, Bound(s, q, env.find(pos, q)), log + [LookedFor(q, pos)])
  {
    hide HasFlag;
    var e := LookedFor(q, pos);
    assert MirrorAt(env, s, log, q);
    Appended(env, log, e, q);
    OthersSame(env, s, Bound(s, q, env.find(pos, q)), log, e);
  }

  lemma MirrorGenerate(env: Env, s: State, log: seq<Event>, q: string, k: nat)
    requires Mirrors(env, s, log)
    ensures Mirrors(env, Generates(s, q), log + [Regenerated(q, k)])
  {
    hide HasFlag;
    var e := Regenerated(q, k);
    assert MirrorAt(env, s, log, q);
    Appended(env, log, e, q);
    OthersSame(env, s, Generates(s, q), log, e);
  }

  lemma MirrorFail(env: Env, s: State, log: seq<Event>, q: string)
    requires Mirrors(env, s, log)
    ensures Mirrors(env, Mark(s, q, Error), log + [MarkedFailed(q)])
  {
    hide HasFlag;
    var e := MarkedFailed(q);
    assert MirrorAt(env, s, log, q);
    Appended(env, log, e, q);
    OthersSame(env, s, Mark(s, q, Error), log, e);
  }

  /** A target whose action was run, and what its time and flags are then. */
  function AfterAction(s: State, q: string, r: Result, shelled: bool): State {
    var k := Get(s, q);
    Put(s, q, k.(time := ActionTime(r, shelled), flags := k.flags + if !shelled || r.time.Some? then {Exists} else {}))
  }

  lemma MirrorAction(env: Env, s: State, log: seq<Event>, q: string, pos: nat, shelled: bool)
    requires Mirrors(env, s, log)
    ensures Mirrors(env, AfterAction(s, q, env.shell(pos), shelled), log + [RanAction(q, pos, shelled)])
  {
    hide HasFlag;
    var e := RanAction(q, pos, shelled);
    assert MirrorAt(env, s, log, q);
    Appended(env, log, e, q);
    OthersSame(env, s, AfterAction(s, q, env.shell(pos), shelled), log, e);
  }

  lemma MirrorClose(env: Env, s: State, log: seq<Event>, q: string, z: nat)
    requires Mirrors(env, s, log)
    ensures Mirrors(env, Close(s, q, z), log + [Finished(q, z)])
  {
    hide HasFlag;
    var e := Finished(q, z);
    assert MirrorAt(env, s, log, q);
    Appended(env, log, e, q);
    OthersSame(env, s, Close(s, q, z), log, e);
  }

  lemma MirrorOpen(env: Env, s: State, log: seq<Event>, q: string)
    requires Mirrors(env, s, log)
    ensures Mirrors(env, Open(s, q), log)
  {
    Unlogged(env, s, Open(s, q), log);
  }
}
