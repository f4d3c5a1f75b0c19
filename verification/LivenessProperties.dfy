/** Further properties of the liveness checker: the loop is one run of the interleaved
    machine, verdicts are coherent, and an outage is notified once. */
module LivenessProperties {
  import opened Basics
  import opened ReportFiles
  import opened ReceiverStore
  import opened Liveness

  // ----- the loop is an uninterrupted run of the machine -----

  /** The steps that the loop takes for one agent. */
  function AgentScript(e: Env, m: Machine, delivers: Event -> bool, saveFails: string -> bool): seq<Step>
    requires m.phase.Judging? && m.phase.rest != []
  {
    var st := m.phase.rest[0];
    var attempt := Judge(st, e.t.For(st.agentID), m.phase.now).attempt;
    var delivered := attempt.Some? && delivers(Event(attempt.value, st.agentID, m.phase.now));
    [JudgeNext(delivered)]
        + (if JudgeStep(e, m, delivered).phase.WritingBack? then [WriteBack(saveFails(st.agentID))] else [])
  }

  /** Steps of the machine that need no environment: none is a restart. */
  ghost predicate Runs(e: Env, m: Machine, steps: seq<Step>, m': Machine)
  {
    RunOk(e, m, steps) && Run(e, m, steps) == m'
  }

  lemma OneStepRuns(e: Env, m: Machine, s: Step)
    requires Enabled(m, s) && !s.Restart?
    ensures Runs(e, m, [s], Next(e, m, s))
  {
    assert [s][1..] == [];
  }

  lemma AgentLoopIsARun(e: Env, m: Machine, delivers: Event -> bool, saveFails: string -> bool)
    requires m.phase.Judging? && m.phase.rest != []
    ensures var r := CheckAgentOf(m.v, e.t, m.phase.rest[0], m.phase.now, delivers, saveFails);
            Runs(e, m, AgentScript(e, m, delivers, saveFails),
                 Machine(r.0, Judging(m.phase.rest[1..], m.phase.now), m.sent + r.1))
  {
    var st := m.phase.rest[0];
    var attempt := Judge(st, e.t.For(st.agentID), m.phase.now).attempt;
    var delivered := attempt.Some? && delivers(Event(attempt.value, st.agentID, m.phase.now));
    ConcatEmpty(m.sent);
    var m1 := Next(e, m, JudgeNext(delivered));
    OneStepRuns(e, m, JudgeNext(delivered));
    ConcatEmpty([JudgeNext(delivered)]);
    if m1.phase.WritingBack? {
      var w := WriteBack(saveFails(st.agentID));
      OneStepRuns(e, m1, w);
      RunsConcat(e, m, [JudgeNext(delivered)], m1, [w], Next(e, m1, w));
    }
    hide SetLivenessOf, Runs;
  }

  lemma {:induction false} RunsConcat(e: Env, m: Machine, a: seq<Step>, m1: Machine, b: seq<Step>, m2: Machine)
    requires Runs(e, m, a, m1) && Runs(e, m1, b, m2)
    ensures Runs(e, m, a + b, m2)
    decreases |a|
  {
    if a == [] {
      ConcatEmpty(b);
    } else {
      assert (a + b)[1..] == a[1..] + b;
      RunsConcat(e, Next(e, m, a[0]), a[1..], m1, b, m2);
    }
  }

  /** The loop over a snapshot is the machine's run in which nothing else happens: everything
      proved of all interleavings holds of it. */
  lemma {:induction false} LoopIsARun(e: Env, m: Machine, delivers: Event -> bool, saveFails: string -> bool)
    returns (steps: seq<Step>)
    requires m.phase.Judging?
    ensures var r := CheckAll(m.v, e.t, m.phase.rest, m.phase.now, delivers, saveFails);
            Runs(e, m, steps, Machine(r.0, Judging([], m.phase.now), m.sent + r.1))
    decreases |m.phase.rest|
  {
    ConcatEmpty(m.sent);
    if m.phase.rest == [] {
      steps := [];
    } else {
      AgentLoopIsARun(e, m, delivers, saveFails);
      hide CheckAgentOf, RunOk, Run;
      var r1 := CheckAgentOf(m.v, e.t, m.phase.rest[0], m.phase.now, delivers, saveFails);
      var m1 := Machine(r1.0, Judging(m.phase.rest[1..], m.phase.now), m.sent + r1.1);
      var script := AgentScript(e, m, delivers, saveFails);
      var rest := LoopIsARun(e, m1, delivers, saveFails);
      var r2 := CheckAll(m1.v, e.t, m1.phase.rest, m1.phase.now, delivers, saveFails);
      ConcatAssoc(m.sent, r1.1, r2.1);
      RunsConcat(e, m, script, m1, rest, Machine(r2.0, Judging([], m.phase.now), m1.sent + r2.1));
      steps := script + rest;
    }
  }

  // ----- a verdict's two halves agree -----

  /** An agent is down exactly if it has been down since some time. */
  predicate CoherentStates(states: map<string, AgentState>)
  {
    forall id :: id in states ==> (states[id].down <==> states[id].downSince != 0)
  }

  predicate Coherent(m: Machine)
  {
    && CoherentStates(m.v.states)
    && CoherentStates(LoadStates(m.v.saved))
    && (m.phase.WritingBack? ==> (m.phase.down <==> m.phase.downSince != 0))
  }

  lemma SavingStaysCoherent(states: map<string, AgentState>)
    requires CoherentStates(states)
    ensures CoherentStates(LoadStates(Some(SaveStates(states))))
  {
    var loaded := LoadStates(Some(SaveStates(states)));
    forall id | id in loaded
      ensures loaded[id].down <==> loaded[id].downSince != 0
    {
      assert id in states && loaded[id] == states[id].(agentID := id);
    }
  }

  /** Down and DownSince agree in memory and on disk at every moment: after every step of
      every interleaving, failed saves and unsafe restarts included. */
  lemma StepStaysCoherent(e: Env, m: Machine, s: Step)
    requires Enabled(m, s) && Coherent(m)
    ensures Coherent(Next(e, m, s))
  {
    hide LoadStates, SaveStates, Update, Cleaned, ReportName, ValidAgentID, Judge;
    match s
    case Report(rec, now, f) =>
      if Accepted(rec, f) {
        var st := if rec.agentID in m.v.states then m.v.states[rec.agentID] else Blank(rec.agentID, "");
        UpdateKeepsVerdict(e.d, st, EntryOf(rec, now));
        SavingStaysCoherent(m.v.states[rec.agentID := Update(e.d, st, EntryOf(rec, now))]);
      }
    case Ensure(id, name, f) =>
      SavingStaysCoherent(m.v.states[id := Blank(id, name)]);
    case Begin(snapshot, at) =>
    case JudgeNext(delivered) =>
      if m.phase.rest[0].lastSeen != 0 {
        JudgeIsCoherent(m.phase.rest[0], e.t.For(m.phase.rest[0].agentID), m.phase.now);
      }
    case WriteBack(f) =>
      var p := m.phase;
      if p.id in m.v.states {
        SavingStaysCoherent(m.v.states[p.id := m.v.states[p.id].(down := p.down, downSince := p.downSince,
                                                                 notified := p.notified)]);
      }
    case Restart =>
  }

  lemma JudgeIsCoherent(st: AgentState, th: int, now: Time)
    requires th > 0
    ensures var v := Judge(st, th, now); v.down <==> v.downSince != 0
  {
  }
}
