/** The story of one agent's outage, as the checker goes through it: over any number of checks,
    with reports and other agents coming in at any moment. */
module LivenessOutages {
  import opened Basics
  import opened ReportFiles
  import opened ReceiverStore
  import opened Liveness
  import opened LivenessRestarts

  // ----- one agent, check by check -----

  /** One check of an agent, at `now`, with `lastSeen` by then; `delivers` is what becomes of
      a notification if one is attempted. */
  datatype Tick = Tick(lastSeen: Time, now: Time, delivers: bool)

  function Ticked(st: AgentState, th: int, t: Tick): AgentState
  {
    CheckOne(st.(lastSeen := t.lastSeen), th, t.now, t.delivers)
  }

  function After(st: AgentState, th: int, ticks: seq<Tick>): AgentState
    decreases |ticks|
  {
    if ticks == [] then st else After(Ticked(st, th, ticks[0]), th, ticks[1..])
  }

  /** The outcomes of the notifications attempted, in order. */
  function Attempts(st: AgentState, th: int, ticks: seq<Tick>): seq<bool>
    decreases |ticks|
  {
    if ticks == [] then []
    else
      var st1 := st.(lastSeen := ticks[0].lastSeen);
      (if st1.lastSeen != 0 && Judge(st1, th, ticks[0].now).attempt.Some? then [ticks[0].delivers] else [])
      + Attempts(Ticked(st, th, ticks[0]), th, ticks[1..])
  }

  /** Every check of the outage finds the agent silent for too long. */
  predicate Outage(th: int, ticks: seq<Tick>)
  {
    forall t :: t in ticks ==> t.lastSeen > 0 && t.now - t.lastSeen > th
  }

  /** The outcomes up to and including the first success. */
  function UntilDelivered(ticks: seq<Tick>): seq<bool>
  {
    if ticks == [] then []
    else if ticks[0].delivers then [true]
    else [false] + UntilDelivered(ticks[1..])
  }

  lemma {:induction false} DownStays(st: AgentState, th: int, ticks: seq<Tick>)
    requires th > 0 && Outage(th, ticks) && st.downSince != 0
    ensures After(st, th, ticks).downSince == st.downSince
    ensures st.down ==> After(st, th, ticks).down
    ensures st.notified == NotifyDown ==> After(st, th, ticks).notified == NotifyDown && Attempts(st, th, ticks) == []
    decreases |ticks|
  {
    if ticks != [] {
      assert ticks[0] in ticks;
      DownStays(Ticked(st, th, ticks[0]), th, ticks[1..]);
    }
  }

  /** Through an outage: one notification, attempted until it is delivered. */
  lemma {:induction false} TicksNotifyOnce(st: AgentState, th: int, ticks: seq<Tick>)
    requires th > 0 && Outage(th, ticks) && ticks != [] && st.notified != NotifyDown
    ensures var st' := After(st, th, ticks);
            && st'.down
            && st'.downSince == (if st.downSince == 0 then ticks[0].now else st.downSince) != 0
            && Attempts(st, th, ticks) == UntilDelivered(ticks)
            && (st'.notified == NotifyDown <==> true in UntilDelivered(ticks))
    decreases |ticks|
  {
    assert ticks[0] in ticks;
    var st1 := Ticked(st, th, ticks[0]);
    if ticks[0].delivers {
      DownStays(st1, th, ticks[1..]);
    } else if |ticks| > 1 {
      TicksNotifyOnce(st1, th, ticks[1..]);
    } else {
      assert ticks[1..] == [];
    }
  }

  /** And back: one recovery, attempted until it is delivered. */
  lemma {:induction false} TicksRecoverOnce(st: AgentState, th: int, ticks: seq<Tick>)
    requires th > 0 && ticks != [] && st.notified == NotifyDown
    requires forall t :: t in ticks ==> t.lastSeen > 0 && t.now - t.lastSeen <= th
    ensures var st' := After(st, th, ticks);
            && !st'.down && st'.downSince == 0
            && Attempts(st, th, ticks) == UntilDelivered(ticks)
            && (st'.notified == NotifyUp <==> true in UntilDelivered(ticks))
    decreases |ticks|
  {
    assert ticks[0] in ticks;
    var st1 := Ticked(st, th, ticks[0]);
    if ticks[0].delivers {
      AliveStays(st1, th, ticks[1..]);
    } else if |ticks| > 1 {
      TicksRecoverOnce(st1, th, ticks[1..]);
    } else {
      assert ticks[1..] == [];
    }
  }

  lemma {:induction false} AliveStays(st: AgentState, th: int, ticks: seq<Tick>)
    requires th > 0 && !st.down && st.downSince == 0 && st.notified == NotifyUp
    requires forall t :: t in ticks ==> t.lastSeen > 0 && t.now - t.lastSeen <= th
    ensures var st' := After(st, th, ticks); !st'.down && st'.downSince == 0 && st'.notified == NotifyUp
    ensures Attempts(st, th, ticks) == []
    decreases |ticks|
  {
    if ticks != [] {
      assert ticks[0] in ticks;
      AliveStays(Ticked(st, th, ticks[0]), th, ticks[1..]);
    }
  }

  // ----- the checker does just that -----

  /** One turn of the loop, for an agent as it is in the store, is one check of that agent. */
  lemma CheckAgentIsCheckOne(v: StoreView, t: Thresholds, id: string, now: Time, delivers: Event -> bool,
                             saveFails: string -> bool)
    requires id in v.states && v.states[id].agentID == id
    ensures var st, th := v.states[id], t.For(id);
            var attempt := Judge(st, th, now).attempt;
            var delivered := attempt.Some? && delivers(Event(attempt.value, id, now));
            CheckAgentOf(v, t, st, now, delivers, saveFails).0.states
                == v.states[id := CheckOne(st, th, now, delivered)]
  {
    assert v.states[id := v.states[id]] == v.states;
    hide SaveStates;
  }

  /** An agent with the verdict that is known of it, be it still on its way to the store. */
  function Effective(m: Machine, id: string): AgentState
    requires id in m.v.states
  {
    var st, p := m.v.states[id], m.phase;
    if p.WritingBack? && p.id == id then st.(down := p.down, downSince := p.downSince, notified := p.notified) else st
  }

  /** What a run ends in, if every restart in it comes right after a successful save. */
  function Reached(e: Env, m: Machine, steps: seq<Step>): Machine
    requires SavedRun(e, m, steps)
    decreases |steps|
  {
    if steps == [] then m else Reached(e, Next(e, m, steps[0]), steps[1..])
  }

  /** The step judges the agent, which has reported before. */
  predicate Judges(m: Machine, s: Step, id: string)
  {
    && s.JudgeNext? && m.phase.Judging? && m.phase.rest != []
    && m.phase.rest[0].agentID == id && m.phase.rest[0].lastSeen != 0
  }

  /** The checks of the agent in a run. */
  function TicksOf(e: Env, m: Machine, steps: seq<Step>, id: string): seq<Tick>
    requires SavedRun(e, m, steps)
    decreases |steps|
  {
    if steps == [] then []
    else (if Judges(m, steps[0], id) then [Tick(m.phase.rest[0].lastSeen, m.phase.now, steps[0].delivered)] else [])
         + TicksOf(e, Next(e, m, steps[0]), steps[1..], id)
  }

  /** The outcomes of the notifications that the run attempts for the agent. */
  function AttemptsIn(e: Env, m: Machine, steps: seq<Step>, id: string): seq<bool>
    requires SavedRun(e, m, steps)
    decreases |steps|
  {
    if steps == [] then []
    else (if Judges(m, steps[0], id) && Judge(m.phase.rest[0], e.t.For(id), m.phase.now).attempt.Some?
          then [steps[0].delivered] else [])
         + AttemptsIn(e, Next(e, m, steps[0]), steps[1..], id)
  }

  /** What a check finds depends on the verdict so far and on the times, and on nothing else. */
  lemma {:induction false} TicksSeeVerdicts(a: AgentState, b: AgentState, th: int, ticks: seq<Tick>)
    requires SameVerdict(a, b)
    ensures SameVerdict(After(a, th, ticks), After(b, th, ticks)) && Attempts(a, th, ticks) == Attempts(b, th, ticks)
    decreases |ticks|
  {
    if ticks != [] {
      TicksSeeVerdicts(Ticked(a, th, ticks[0]), Ticked(b, th, ticks[0]), th, ticks[1..]);
    }
  }

  /** A step that does not judge the agent leaves its verdict alone, whatever else it does. */
  lemma OtherStepsKeepVerdict(e: Env, m: Machine, s: Step, id: string)
    requires Tracked(m) && id in m.v.states && Enabled(m, s) && (s.Restart? ==> AllSaved(m)) && !Judges(m, s, id)
    ensures id in Next(e, m, s).v.states && SameVerdict(Effective(Next(e, m, s), id), Effective(m, id))
  {
    hide ValidAgentID, SaveStates, LoadStates, Judge, Update, Cleaned, ReportName;
    match s
    case Report(rec, now, f) =>
      VerdictsStay(e.d, m.v, rec, now, e.retentionDays, f);
      hide AppendTo;
    case Ensure(_, name, f) =>
    case Begin(snapshot, at) => hide Snapshot;
    case JudgeNext(delivered) =>
    case WriteBack(f) =>
    case Restart => SaveLoadIdentity(m.v.states);
  }

  /** A step that judges it does one check of it. */
  lemma JudgingIsATick(e: Env, m: Machine, s: Step, id: string)
    requires Tracked(m) && id in m.v.states && Judges(m, s, id)
    ensures var tick := Tick(m.phase.rest[0].lastSeen, m.phase.now, s.delivered);
            && id in Next(e, m, s).v.states
            && SameVerdict(Effective(Next(e, m, s), id), Ticked(Effective(m, id), e.t.For(id), tick))
            && (Judge(m.phase.rest[0], e.t.For(id), m.phase.now).attempt
                == Judge(Effective(m, id).(lastSeen := tick.lastSeen), e.t.For(id), tick.now).attempt)
  {
    hide ValidAgentID;
  }

  /** Every run goes through the story check by check, whatever is interleaved: the verdict at
      its end is that of its checks of the agent, and so are the notifications it attempts. */
  lemma {:induction false} RunIsItsTicks(e: Env, m: Machine, steps: seq<Step>, id: string)
    requires Tracked(m) && id in m.v.states && SavedRun(e, m, steps)
    ensures var m', ticks, th := Reached(e, m, steps), TicksOf(e, m, steps, id), e.t.For(id);
            && Tracked(m') && id in m'.v.states
            && SameVerdict(Effective(m', id), After(Effective(m, id), th, ticks))
            && AttemptsIn(e, m, steps, id) == Attempts(Effective(m, id), th, ticks)
    decreases |steps|
  {
    if steps != [] {
      var s, th := steps[0], e.t.For(id);
      var m1 := Next(e, m, s);
      StepKeepsTracked(e, m, s);
      var rest := TicksOf(e, m1, steps[1..], id);
      if Judges(m, s, id) {
        JudgingIsATick(e, m, s, id);
        var tick := Tick(m.phase.rest[0].lastSeen, m.phase.now, s.delivered);
        assert ([tick] + rest)[1..] == rest;
        hide Next, Tracked, Effective, Enabled, CheckOne, Judge;
        RunIsItsTicks(e, m1, steps[1..], id);
        TicksSeeVerdicts(Effective(m1, id), Ticked(Effective(m, id), th, tick), th, rest);
      } else {
        OtherStepsKeepVerdict(e, m, s, id);
        ConcatEmpty(rest);
        hide Next, Tracked, Effective, Enabled, Judges, CheckOne, Judge;
        RunIsItsTicks(e, m1, steps[1..], id);
        TicksSeeVerdicts(Effective(m1, id), Effective(m, id), th, rest);
      }
    }
  }

  // ----- the story of one outage -----

  /** Through an unbroken outage, in every interleaving: it begins at its first check and keeps
      that time; the notification is attempted at every check until it is delivered, and never
      again after that. */
  lemma OutageIsNotifiedOnce(e: Env, m: Machine, steps: seq<Step>, id: string)
    requires Tracked(m) && id in m.v.states && SavedRun(e, m, steps)
    requires var ticks := TicksOf(e, m, steps, id); ticks != [] && Outage(e.t.For(id), ticks)
    requires Effective(m, id).notified != NotifyDown
    ensures var st, m', ticks := Effective(m, id), Reached(e, m, steps), TicksOf(e, m, steps, id);
            && id in m'.v.states && Effective(m', id).down
            && Effective(m', id).downSince == (if st.downSince == 0 then ticks[0].now else st.downSince) != 0
            && AttemptsIn(e, m, steps, id) == UntilDelivered(ticks)
            && (Effective(m', id).notified == NotifyDown <==> true in UntilDelivered(ticks))
  {
    RunIsItsTicks(e, m, steps, id);
    TicksNotifyOnce(Effective(m, id), e.t.For(id), TicksOf(e, m, steps, id));
  }

  /** The end of an outage: the check that finds the agent alive clears the verdict, and it
      attempts to notify the recovery exactly if the outage had been notified. */
  lemma OutageEnds(e: Env, m: Machine, steps: seq<Step>, id: string, delivered: bool)
    requires Tracked(m) && id in m.v.states && SavedRun(e, m, steps)
    requires var ticks := TicksOf(e, m, steps, id); ticks != [] && Outage(e.t.For(id), ticks)
    requires Effective(m, id).notified != NotifyDown
    requires var m' := Reached(e, m, steps);
             Judges(m', JudgeNext(delivered), id) && m'.phase.now - m'.phase.rest[0].lastSeen <= e.t.For(id)
    ensures var m', ticks := Reached(e, m, steps), TicksOf(e, m, steps, id);
            var m2 := Next(e, m', JudgeNext(delivered));
            && id in m2.v.states && !Effective(m2, id).down && Effective(m2, id).downSince == 0
            && (Judge(m'.phase.rest[0], e.t.For(id), m'.phase.now).attempt == Some(KindRecovered)
                <==> true in UntilDelivered(ticks))
  {
    OutageIsNotifiedOnce(e, m, steps, id);
    RunIsItsTicks(e, m, steps, id);
    JudgingIsATick(e, Reached(e, m, steps), JudgeNext(delivered), id);
    hide Tracked, Reached, SavedRun, TicksOf, UntilDelivered, Outage;
  }

  /** The way back, in every interleaving: while an agent whose outage was notified is found
      alive, its recovery is attempted at every check until it is delivered, and never again
      after that. */
  lemma RecoveryIsNotifiedOnce(e: Env, m: Machine, steps: seq<Step>, id: string)
    requires Tracked(m) && id in m.v.states && SavedRun(e, m, steps)
    requires var ticks := TicksOf(e, m, steps, id);
             ticks != [] && forall t :: t in ticks ==> t.lastSeen > 0 && t.now - t.lastSeen <= e.t.For(id)
    requires Effective(m, id).notified == NotifyDown
    ensures var m', ticks := Reached(e, m, steps), TicksOf(e, m, steps, id);
            && id in m'.v.states && !Effective(m', id).down && Effective(m', id).downSince == 0
            && AttemptsIn(e, m, steps, id) == UntilDelivered(ticks)
            && (Effective(m', id).notified == NotifyUp <==> true in UntilDelivered(ticks))
  {
    RunIsItsTicks(e, m, steps, id);
    TicksRecoverOnce(Effective(m, id), e.t.For(id), TicksOf(e, m, steps, id));
  }
}
