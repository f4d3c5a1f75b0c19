/** The checker leaves out the write of a verdict that has not changed. In memory and in what it
    notifies that cannot be told from always writing; on disk it can, because a write also saves. */
module LivenessWrites {
  import opened Basics
  import opened ReportFiles
  import opened ReceiverStore
  import opened Liveness
  import opened LivenessProperties
  import opened LivenessRestarts

  // ----- a checker that always writes -----

  /** Judging an agent and always writing the verdict back. */
  function JudgeAlways(e: Env, m: Machine, delivered: bool): Machine
    requires m.phase.Judging? && m.phase.rest != []
  {
    var st, rest, now := m.phase.rest[0], m.phase.rest[1..], m.phase.now;
    if st.lastSeen == 0 then m.(phase := Judging(rest, now))
    else
      var v := Judge(st, e.t.For(st.agentID), now);
      Machine(m.v,
              WritingBack(st.agentID, v.down, v.downSince, NotifiedAfter(st.notified, v.attempt, delivered), rest, now),
              if v.attempt.Some? && delivered then m.sent + [Event(v.attempt.value, st.agentID, now)] else m.sent)
  }

  function NextAlways(e: Env, a: Machine, s: Step): Machine
    requires Enabled(a, s)
  {
    if s.JudgeNext? then JudgeAlways(e, a, s.delivered) else Next(e, a, s)
  }

  /** A run of the checker that always writes, within one life of the receiver. */
  predicate AlwaysOk(e: Env, a: Machine, steps: seq<Step>)
    decreases |steps|
  {
    steps == [] || (Enabled(a, steps[0]) && !steps[0].Restart? && AlwaysOk(e, NextAlways(e, a, steps[0]), steps[1..]))
  }

  function RunAlways(e: Env, a: Machine, steps: seq<Step>): Machine
    requires AlwaysOk(e, a, steps)
    decreases |steps|
  {
    if steps == [] then a else RunAlways(e, NextAlways(e, a, steps[0]), steps[1..])
  }

  /** The checker as it is, in the same interleaving: it has nothing to do where only the other
      one writes back. */
  function Follow(e: Env, m: Machine, s: Step): Machine { if Enabled(m, s) then Next(e, m, s) else m }

  function FollowAll(e: Env, m: Machine, steps: seq<Step>): Machine
    decreases |steps|
  {
    if steps == [] then m else FollowAll(e, Follow(e, m, steps[0]), steps[1..])
  }

  // ----- the two cannot be told apart -----

  /** `a` is about to write a verdict that its state already has, and `m` has left that out. */
  predicate LeftOut(m: Machine, a: Machine)
  {
    && a.phase.WritingBack? && m.phase == Judging(a.phase.rest, a.phase.now)
    && a.phase.id in a.v.states
    && var st := a.v.states[a.phase.id];
       st.down == a.phase.down && st.downSince == a.phase.downSince && st.notified == a.phase.notified
  }

  /** The same agents, the same reports, the same notifications, at the same place. */
  predicate Alike(m: Machine, a: Machine)
  {
    && m.v.states == a.v.states && m.v.files == a.v.files && m.sent == a.sent
    && (m.phase == a.phase || LeftOut(m, a))
  }

  lemma JudgeStaysAlike(e: Env, m: Machine, a: Machine, delivered: bool)
    requires Tracked(m) && Alike(m, a) && m.phase == a.phase && m.phase.Judging? && m.phase.rest != []
    ensures Alike(JudgeStep(e, m, delivered), JudgeAlways(e, a, delivered))
  {
    assert m.phase.rest[0].agentID in m.v.states && SameVerdict(m.v.states[m.phase.rest[0].agentID], m.phase.rest[0]);
    hide Judge, Keyed;
  }

  lemma ReportStaysAlike(e: Env, m: Machine, a: Machine, s: Step)
    requires s.Report? && Enabled(a, s) && Keyed(m.v.states) && Alike(m, a)
    ensures Alike(Next(e, m, s), Next(e, a, s))
  {
    VerdictsStay(e.d, m.v, s.rec, s.now, e.retentionDays, s.f);
    hide StatesAfter, FilesAfter, ValidAgentID, SaveStates, Keyed;
  }

  lemma WriteBackStaysAlike(e: Env, m: Machine, a: Machine, s: Step)
    requires s.WriteBack? && Enabled(a, s) && Alike(m, a)
    ensures Alike(Follow(e, m, s), Next(e, a, s))
  {
    if LeftOut(m, a) {
      assert a.v.states[a.phase.id := a.v.states[a.phase.id]] == a.v.states;
    }
    hide SaveStates;
  }

  lemma StepStaysAlike(e: Env, m: Machine, a: Machine, s: Step)
    requires Tracked(m) && Alike(m, a) && Enabled(a, s) && !s.Restart?
    ensures Alike(Follow(e, m, s), NextAlways(e, a, s))
  {
    match s
    case Report(rec, now, f) => ReportStaysAlike(e, m, a, s);
    case Ensure(id, name, f) => hide ValidAgentID, SaveStates;
    case Begin(snapshot, at) =>
    case JudgeNext(delivered) => JudgeStaysAlike(e, m, a, delivered);
    case WriteBack(f) => WriteBackStaysAlike(e, m, a, s);
  }

  lemma FollowStaysTracked(e: Env, m: Machine, s: Step)
    requires Tracked(m)
    ensures Tracked(Follow(e, m, s))
  {
    if Enabled(m, s) {
      StepKeepsTracked(e, m, s);
    }
  }

  /** In every interleaving the checker that leaves out unchanged writes notifies the same, and
      leaves the same agents and reports, as one that always writes. */
  lemma {:induction false} SkippingIsInvisible(e: Env, m: Machine, a: Machine, steps: seq<Step>)
    requires Tracked(m) && Alike(m, a) && AlwaysOk(e, a, steps)
    ensures Alike(FollowAll(e, m, steps), RunAlways(e, a, steps))
    decreases |steps|
  {
    if steps != [] {
      hide Tracked, Alike, Enabled, Follow, NextAlways;
      StepStaysAlike(e, m, a, steps[0]);
      FollowStaysTracked(e, m, steps[0]);
      SkippingIsInvisible(e, Follow(e, m, steps[0]), NextAlways(e, a, steps[0]), steps[1..]);
    }
  }

  /** The steps of an interleaving in which the checker as it is has something to do. */
  function Kept(e: Env, m: Machine, steps: seq<Step>): seq<Step>
    decreases |steps|
  {
    if steps == [] then []
    else (if Enabled(m, steps[0]) then [steps[0]] else []) + Kept(e, Follow(e, m, steps[0]), steps[1..])
  }

  /** What follows is a run of the checker as it is. */
  lemma {:induction false} FollowingIsARun(e: Env, m: Machine, steps: seq<Step>)
    requires forall s :: s in steps ==> !s.Restart?
    ensures Runs(e, m, Kept(e, m, steps), FollowAll(e, m, steps))
    decreases |steps|
  {
    if steps != [] {
      var s, m' := steps[0], Follow(e, m, steps[0]);
      assert s in steps;
      FollowingIsARun(e, m', steps[1..]);
      hide Next, Enabled, Runs;
      ConcatEmpty(Kept(e, m', steps[1..]));
      if Enabled(m, s) {
        OneStepRuns(e, m, s);
        RunsConcat(e, m, [s], m', Kept(e, m', steps[1..]), FollowAll(e, m, steps));
      }
    }
  }

  /** And every run of the checker as it is follows some run of the other one, whatever becomes
      of the saves that only the other one makes. */
  lemma {:induction false} EveryRunIsFollowed(e: Env, m: Machine, a: Machine, steps: seq<Step>,
                                              saveFails: string -> bool)
    returns (all: seq<Step>)
    requires Tracked(m) && Alike(m, a) && m.phase == a.phase
    requires RunOk(e, m, steps) && forall s :: s in steps ==> !s.Restart?
    ensures AlwaysOk(e, a, all) && FollowAll(e, m, all) == Run(e, m, steps)
    decreases |steps|
  {
    all := [];
    if steps != [] {
      var s := steps[0];
      assert s in steps;
      assert Enabled(a, s);
      var m1, a1 := Next(e, m, s), NextAlways(e, a, s);
      StepStaysAlike(e, m, a, s);
      StepKeepsTracked(e, m, s);
      if m1.phase == a1.phase {
        hide Next, NextAlways, Tracked, Alike;
        var rest := EveryRunIsFollowed(e, m1, a1, steps[1..], saveFails);
        all := [s] + rest;
      } else {
        var w := WriteBack(saveFails(a1.phase.id));
        var a2 := NextAlways(e, a1, w);
        WriteBackStaysAlike(e, m1, a1, w);
        assert Follow(e, m1, w) == m1 && m1.phase == a2.phase;
        hide Next, NextAlways, Tracked, Alike;
        var rest := EveryRunIsFollowed(e, m1, a2, steps[1..], saveFails);
        assert ([w] + rest)[1..] == rest;
        assert AlwaysOk(e, a1, [w] + rest) && FollowAll(e, m1, [w] + rest) == FollowAll(e, m1, rest);
        all := [s] + ([w] + rest);
      }
    }
  }

  // ----- on disk -----

  /** The state files of both are the same at every moment of the run. */
  predicate AgreeThroughout(e: Env, m: Machine, a: Machine, steps: seq<Step>)
    requires AlwaysOk(e, a, steps)
    decreases |steps|
  {
    && m.v.saved == a.v.saved
    && (steps == [] || AgreeThroughout(e, Follow(e, m, steps[0]), NextAlways(e, a, steps[0]), steps[1..]))
  }

  /** Every write that is left out would have failed to save, or found the state file current. */
  predicate HarmlessSkips(e: Env, m: Machine, a: Machine, steps: seq<Step>)
    requires AlwaysOk(e, a, steps)
    decreases |steps|
  {
    steps == []
    || (&& (steps[0].WriteBack? && LeftOut(m, a) ==> steps[0].saveFails || a.v.saved == Some(SaveStates(a.v.states)))
        && HarmlessSkips(e, Follow(e, m, steps[0]), NextAlways(e, a, steps[0]), steps[1..]))
  }

  lemma StepSavesAlike(e: Env, m: Machine, a: Machine, s: Step)
    requires Tracked(m) && Alike(m, a) && Enabled(a, s) && !s.Restart? && m.v.saved == a.v.saved
    ensures Follow(e, m, s).v.saved == NextAlways(e, a, s).v.saved
       <==> (s.WriteBack? && LeftOut(m, a) ==> s.saveFails || a.v.saved == Some(SaveStates(a.v.states)))
  {
    if s.WriteBack? && LeftOut(m, a) {
      assert a.v.states[a.phase.id := a.v.states[a.phase.id]] == a.v.states;
    }
    hide SaveStates, Update, Cleaned, ReportName, ValidAgentID, Keyed, Judge, LineOf, Extended, Snapshot;
  }

  /** The state file is the same all along as if every verdict were written if and only if every
      write that is left out would have failed to save, or found the state file current. */
  lemma {:induction false} StateFilesAgreeIff(e: Env, m: Machine, a: Machine, steps: seq<Step>)
    requires Tracked(m) && Alike(m, a) && AlwaysOk(e, a, steps) && m.v.saved == a.v.saved
    ensures AgreeThroughout(e, m, a, steps) <==> HarmlessSkips(e, m, a, steps)
    decreases |steps|
  {
    if steps != [] {
      hide Tracked, Alike, Enabled, Follow, NextAlways, LeftOut;
      StepStaysAlike(e, m, a, steps[0]);
      FollowStaysTracked(e, m, steps[0]);
      StepSavesAlike(e, m, a, steps[0]);
      var m1, a1 := Follow(e, m, steps[0]), NextAlways(e, a, steps[0]);
      if m1.v.saved == a1.v.saved {
        StateFilesAgreeIff(e, m1, a1, steps[1..]);
      }
    }
  }

  /** The input that the condition rules out. The record of a notified outage was lost with a
      failed save; at the next check nothing has changed, so the write is left out and the record
      stays lost - a restart is still unsafe - where writing would have saved it. */
  lemma LostRecordStaysLost(e: Env, st: AgentState, now: Time, later: Time)
    requires FirstOutage(e, st, now) && later - 1 > e.t.For(st.agentID)
    ensures var m := Unsaved(st, now);
            var steps := [Begin([m.v.states[st.agentID]], later), JudgeNext(true), WriteBack(false)];
            && AlwaysOk(e, m, steps)
            && FollowAll(e, m, steps).v == m.v && !RestartSafe(FollowAll(e, m, steps))
            && RunAlways(e, m, steps).v.saved == Some(SaveStates(m.v.states)) && RestartSafe(RunAlways(e, m, steps))
  {
    var m := Unsaved(st, now);
    var st' := m.v.states[st.agentID];
    LosesTheRecord(e, st, now);
    LostSaveNotifiesTwice(e, st, now);
    NextCheckOfLost(e, st, now, later);
    hide Honest, RestartSafe, Unsaved, Runs, FirstOutage, AlwaysOk, RunAlways, FollowAll;
    RestartSafeDependsOn(m, m.(phase := Judging([], later)));
    SaveKeepsHonest(m, later);
    SavedIsSafe(m.(v := m.v.(saved := Some(SaveStates(m.v.states))), phase := Judging([], later)));
  }

  lemma NextCheckOfLost(e: Env, st: AgentState, now: Time, later: Time)
    requires FirstOutage(e, st, now) && later - 1 > e.t.For(st.agentID)
    ensures var m := Unsaved(st, now);
            var steps := [Begin([m.v.states[st.agentID]], later), JudgeNext(true), WriteBack(false)];
            && AlwaysOk(e, m, steps) && FollowAll(e, m, steps) == m.(phase := Judging([], later))
            && RunAlways(e, m, steps)
                == m.(v := m.v.(saved := Some(SaveStates(m.v.states))), phase := Judging([], later))
  {
    var m := Unsaved(st, now);
    var st' := m.v.states[st.agentID];
    assert m.v.states == map[st.agentID := st'] && m.phase == Judging([], now) && st'.agentID == st.agentID;
    assert st'.down && st'.downSince == now && st'.notified == NotifyDown && st'.lastSeen == 1;
    assert Judge(st', e.t.For(st.agentID), later) == Verdict(true, now, None);
    hide Unsaved, FirstOutage, Judge, SaveStates;
    var m1 := m.(phase := Judging([st'], later));
    assert Enabled(m, Begin([st'], later)) && Next(e, m, Begin([st'], later)) == m1;
    var a2 := m.(phase := WritingBack(st.agentID, true, now, NotifyDown, [], later));
    assert [st'][1..] == [];
    assert NextAlways(e, m1, JudgeNext(true)) == a2 && Next(e, m1, JudgeNext(true)) == m.(phase := Judging([], later));
    assert map[st.agentID := st'][st.agentID := st'] == map[st.agentID := st'];
    assert NextAlways(e, a2, WriteBack(false))
        == m.(v := m.v.(saved := Some(SaveStates(m.v.states))), phase := Judging([], later));
    ThreeSteps(e, m, Begin([st'], later), JudgeNext(true), WriteBack(false));
  }

  lemma RestartSafeDependsOn(m: Machine, n: Machine)
    requires m.v.saved == n.v.saved && m.sent == n.sent
    ensures RestartSafe(m) <==> RestartSafe(n)
  {
  }

  lemma SaveKeepsHonest(m: Machine, later: Time)
    requires Honest(m) && m.phase.Judging? && m.phase.rest == []
    ensures Honest(m.(v := m.v.(saved := Some(SaveStates(m.v.states))), phase := Judging([], later)))
  {
    forall id
      ensures Told(m.(v := m.v.(saved := Some(SaveStates(m.v.states))), phase := Judging([], later)), id)
    {
      assert Told(m, id);
    }
  }

  lemma ThreeSteps(e: Env, m: Machine, s1: Step, s2: Step, s3: Step)
    requires !s1.Restart? && !s2.Restart? && !s3.Restart?
    requires Enabled(m, s1) && Enabled(NextAlways(e, m, s1), s2)
    requires Enabled(NextAlways(e, NextAlways(e, m, s1), s2), s3)
    ensures AlwaysOk(e, m, [s1, s2, s3])
    ensures RunAlways(e, m, [s1, s2, s3]) == NextAlways(e, NextAlways(e, NextAlways(e, m, s1), s2), s3)
    ensures FollowAll(e, m, [s1, s2, s3]) == Follow(e, Follow(e, Follow(e, m, s1), s2), s3)
  {
    hide NextAlways, Follow, Enabled;
    var a1 := NextAlways(e, m, s1);
    var a2 := NextAlways(e, a1, s2);
    var a3 := NextAlways(e, a2, s3);
    assert [s1, s2, s3][1..] == [s2, s3] && [s2, s3][1..] == [s3] && [s3][1..] == [];
    assert AlwaysOk(e, a3, []) && RunAlways(e, a3, []) == a3;
    assert AlwaysOk(e, a2, [s3]) && RunAlways(e, a2, [s3]) == a3;
    assert AlwaysOk(e, a1, [s2, s3]) && RunAlways(e, a1, [s2, s3]) == a3;
    var m1 := Follow(e, m, s1);
    var m2 := Follow(e, m1, s2);
    assert FollowAll(e, m2, [s3]) == FollowAll(e, Follow(e, m2, s3), []) == Follow(e, m2, s3);
    assert FollowAll(e, m1, [s2, s3]) == FollowAll(e, m2, [s3]);
  }
}
