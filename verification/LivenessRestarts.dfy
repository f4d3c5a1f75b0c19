/** Restarts of the receiver: exactly when notifications keep alternating across one. */
module LivenessRestarts {
  import opened Basics
  import opened ReportFiles
  import opened ReceiverStore
  import opened Liveness
  import opened LivenessProperties

  // ----- a restart after which the alternation breaks -----

  /** The checker passes over the first `k` agents of its snapshot: nothing it attempts for them
      is delivered, and no save goes through. */
  lemma {:induction false} PassesOver(e: Env, m: Machine, k: nat) returns (steps: seq<Step>, m': Machine)
    requires m.phase.Judging? && k <= |m.phase.rest|
    ensures Runs(e, m, steps, m')
    ensures m'.phase == Judging(m.phase.rest[k..], m.phase.now) && m'.sent == m.sent
    decreases k
  {
    if k == 0 {
      steps, m' := [], m;
    } else {
      var j := JudgeNext(false);
      var m1 := Next(e, m, j);
      OneStepRuns(e, m, j);
      var script, m2 := [j], m1;
      if m1.phase.WritingBack? {
        m2 := Next(e, m1, WriteBack(true));
        OneStepRuns(e, m1, WriteBack(true));
        RunsConcat(e, m, [j], m1, [WriteBack(true)], m2);
        script := [j] + [WriteBack(true)];
      }
      assert m2.phase == Judging(m.phase.rest[1..], m.phase.now) && m2.sent == m.sent;
      assert m.phase.rest[1..][k - 1..] == m.phase.rest[k..];
      hide Runs, Next, Enabled;
      var rest;
      rest, m' := PassesOver(e, m2, k - 1);
      RunsConcat(e, m, script, m2, rest, m');
      steps := script + rest;
    }
  }

  lemma {:induction false} SnapshotExists(states: map<string, AgentState>) returns (out: seq<AgentState>)
    requires Keyed(states)
    ensures Snapshot(out, states)
    decreases |states|
  {
    if states == map[] {
      out := [];
    } else {
      var id :| id in states;
      var others := Without(states, {id});
      assert others.Keys == states.Keys - {id};
      assert others[id := states[id]] == states && states[id].agentID == id && Keyed(others);
      hide Snapshot, Without, InsertByID, Keyed;
      var rest := SnapshotExists(others);
      InsertKeepsSnapshot(rest, others, states[id]);
      out := InsertByID(rest, states[id]);
    }
  }

  /** A check at `at` that notifies `kind` to the agent and to nobody else. */
  lemma NotifiesOnly(e: Env, m: Machine, id: string, at: Time, kind: Kind) returns (steps: seq<Step>, m': Machine)
    requires Tracked(m) && m.phase.Judging? && m.phase.rest == [] && id in m.v.states && m.v.states[id].lastSeen != 0
    requires Judge(m.v.states[id], e.t.For(id), at).attempt == Some(kind)
    ensures Runs(e, m, steps, m') && m'.sent == m.sent + [Event(kind, id, at)]
  {
    var snap := SnapshotExists(m.v.states);
    var k :| 0 <= k < |snap| && snap[k] == m.v.states[id];
    var begin := Begin(snap, at);
    var m1 := Next(e, m, begin);
    OneStepRuns(e, m, begin);
    var script, m2 := PassesOver(e, m1, k);
    assert m2.phase.rest[0] == snap[k];
    m' := Next(e, m2, JudgeNext(true));
    OneStepRuns(e, m2, JudgeNext(true));
    assert m'.sent == m.sent + [Event(kind, id, at)];
    hide Runs, Next, Enabled;
    RunsConcat(e, m, [begin], m1, script, m2);
    RunsConcat(e, m, [begin] + script, m2, [JudgeNext(true)], m');
    steps := [begin] + script + [JudgeNext(true)];
  }

  /** After the restart the agent reports once more, at `now`. */
  lemma ReportsAgain(e: Env, m: Machine, id: string, now: Instant) returns (s: Step)
    requires Tracked(m) && m.phase.Judging? && m.phase.rest == [] && ValidAgentID(id) && Nanos(now) > 0
    ensures s.Report? && Enabled(m, s) && Runs(e, m, [s], Next(e, m, s))
    ensures var m' := Next(e, m, s);
            && Tracked(m') && m'.phase == m.phase && m'.sent == m.sent
            && id in m'.v.states && m'.v.states[id].lastSeen == Nanos(now)
            && m'.v.states[id].notified == NotifiedIn(m.v.states, id)
  {
    var rec := Record(id, "", "", "", None);
    s := Report(rec, now, NoFault);
    OneStepRuns(e, m, s);
    StepKeepsTracked(e, m, s);
    UpdateKeepsVerdict(e.d, if id in m.v.states then m.v.states[id] else Blank(id, ""), EntryOf(rec, now));
    hide Update, Cleaned, ReportName, Runs, Tracked, SaveStates, ValidAgentID;
  }

  /** If the state file is wrong about one agent, its next report and the next check are enough
      to send it two downs in a row, or a recovery that follows no down. */
  lemma UnsafeRestartBreaks(e: Env, m: Machine, id: string, now: Instant) returns (steps: seq<Step>)
    requires Honest(m) && Nanos(now) > 0
    requires (NotifiedIn(LoadStates(m.v.saved), id) == NotifyDown) != LastIsDown(KindsOf(m.sent, id))
    ensures RunOk(e, Next(e, m, Restart), steps)
    ensures !Alternates(KindsOf(Run(e, Next(e, m, Restart), steps).sent, id))
  {
    assert Told(m, id);
    var m1 := Next(e, m, Restart);
    LoadedAreKeyed(m.v.saved);
    assert Tracked(m1) && ValidAgentID(id);
    var report := ReportsAgain(e, m1, id, now);
    var m2 := Next(e, m1, report);
    var th := e.t.For(id);
    var down := m2.v.states[id].notified != NotifyDown;
    var at := if down then Nanos(now) + th + 1 else Nanos(now);
    var kind := if down then KindDown else KindRecovered;
    assert Judge(m2.v.states[id], th, at).attempt == Some(kind);
    hide Honest, Told, Tracked, Next, Enabled, Runs, Judge, KindsOf, ValidAgentID;
    var script, m3 := NotifiesOnly(e, m2, id, at, kind);
    RunsConcat(e, m1, [report], m2, script, m3);
    steps := [report] + script;
    KindsSnoc(m.sent, Event(kind, id, at), id);
    NotTheNextOne(KindsOf(m.sent, id), kind);
    RunsTo(e, m1, steps, m3);
  }

  lemma RunsTo(e: Env, m: Machine, steps: seq<Step>, m': Machine)
    requires Runs(e, m, steps, m')
    ensures RunOk(e, m, steps) && Run(e, m, steps) == m'
  {
  }

  lemma NotTheNextOne(kinds: seq<Kind>, kind: Kind)
    requires LastIsDown(kinds) <==> kind.KindDown?
    ensures !Alternates(kinds + [kind])
  {
    var longer := kinds + [kind];
    assert forall i :: 0 <= i < |kinds| ==> kinds[i] == longer[i];
    assert longer[|kinds|] == kind;
    if Alternates(kinds) {
      AlternationEnds(kinds);
    }
  }

  // ----- exactly when a restart is safe -----

  ghost predicate AlternatesOver(e: Env, m: Machine, steps: seq<Step>)
  {
    RunOk(e, m, steps) ==> forall id :: Alternates(KindsOf(Run(e, m, steps).sent, id))
  }

  /** However the machine goes on from here, every agent's notifications alternate. */
  ghost predicate AlternatesForEver(e: Env, m: Machine) { forall steps :: AlternatesOver(e, m, steps) }

  lemma HonestAlternates(e: Env, m: Machine)
    requires Honest(m)
    ensures AlternatesForEver(e, m)
  {
    forall steps
      ensures AlternatesOver(e, m, steps)
    {
      if RunOk(e, m, steps) {
        RunStaysHonest(e, m, steps);
        forall id
          ensures Alternates(KindsOf(Run(e, m, steps).sent, id))
        {
          assert Told(Run(e, m, steps), id);
        }
      }
    }
  }

  /** A restart keeps the notifications of every agent alternating, however the run goes on, if
      and only if the state file has each agent marked as notified down exactly when the last
      notification it was sent is a down. */
  lemma RestartAlternatesIffSafe(e: Env, m: Machine)
    requires Honest(m)
    ensures AlternatesForEver(e, Next(e, m, Restart)) <==> RestartSafe(m)
  {
    var m' := Next(e, m, Restart);
    if RestartSafe(m) {
      StepStaysHonest(e, m, Restart);
      HonestAlternates(e, m');
    } else {
      var id :| (NotifiedIn(LoadStates(m.v.saved), id) == NotifyDown) != LastIsDown(KindsOf(m.sent, id));
      var now := Instant(Date(1, 1, 1), 1);
      var steps := UnsafeRestartBreaks(e, m, id, now);
      assert !AlternatesOver(e, m', steps);
    }
  }

  // ----- restarts that a caller can tell to be safe -----

  /** Everything found so far is saved, and no verdict is waiting to be written back. */
  predicate AllSaved(m: Machine) { m.phase.Judging? && m.v.saved == Some(SaveStates(m.v.states)) }

  /** Right after a successful save, with no verdict waiting to be written back, a restart is safe. */
  lemma SavedIsSafe(m: Machine)
    requires Honest(m) && AllSaved(m)
    ensures RestartSafe(m)
  {
    SaveLoadIdentity(m.v.states);
    forall id
      ensures NotifiedIn(LoadStates(m.v.saved), id) == NotifyDown <==> LastIsDown(KindsOf(m.sent, id))
    {
      assert Told(m, id);
    }
  }

  /** A run in which every restart comes right after a successful save. */
  predicate SavedRun(e: Env, m: Machine, steps: seq<Step>)
    decreases |steps|
  {
    steps == [] ||
    (Enabled(m, steps[0]) && (steps[0].Restart? ==> AllSaved(m)) && SavedRun(e, Next(e, m, steps[0]), steps[1..]))
  }

  lemma {:induction false} SavedRunIsOk(e: Env, m: Machine, steps: seq<Step>)
    requires Honest(m) && SavedRun(e, m, steps)
    ensures RunOk(e, m, steps)
    decreases |steps|
  {
    if steps != [] {
      hide Honest, AllSaved, RestartSafe, Enabled, Next;
      if steps[0].Restart? {
        SavedIsSafe(m);
      }
      StepStaysHonest(e, m, steps[0]);
      SavedRunIsOk(e, Next(e, m, steps[0]), steps[1..]);
    }
  }

  /** With every restart taken right after a successful save - in any interleaving, whatever
      other saves and notifications fail - every agent's notifications alternate. */
  lemma AlternatesAcrossSavedRestarts(e: Env, m: Machine, steps: seq<Step>, id: string)
    requires New(m) && SavedRun(e, m, steps)
    ensures RunOk(e, m, steps) && Alternates(KindsOf(Run(e, m, steps).sent, id))
  {
    NewIsHonest(m);
    SavedRunIsOk(e, m, steps);
    NotificationsAlternate(e, m, steps, id);
  }

  // ----- an unsafe restart -----

  /** An agent that has reported once, before any check, and is now silent for too long. */
  ghost predicate FirstOutage(e: Env, st: AgentState, now: Time)
  {
    && ValidAgentID(st.agentID) && st == Blank(st.agentID, "").(lastSeen := 1)
    && now - 1 > e.t.For(st.agentID)
  }

  function Watching(st: AgentState, now: Time, sent: seq<Event>): Machine
  {
    var states := map[st.agentID := st];
    Machine(StoreView(states, Some(SaveStates(states)), map[]), Judging([st], now), sent)
  }

  /** The notification goes out, the save of its record fails. */
  function Unsaved(st: AgentState, now: Time): Machine
  {
    var m := Watching(st, now, [Event(KindDown, st.agentID, now)]);
    m.(v := m.v.(states := map[st.agentID := st.(down := true, downSince := now, notified := NotifyDown)]),
       phase := Judging([], now))
  }

  lemma NotifiesAndLosesSave(e: Env, st: AgentState, now: Time)
    requires FirstOutage(e, st, now)
    ensures var m1 := Next(e, Watching(st, now, []), JudgeNext(true));
            m1.phase.WritingBack? && Next(e, m1, WriteBack(true)) == Unsaved(st, now)
  {
    hide ValidAgentID;
    var m := Watching(st, now, []);
    assert Judge(st, e.t.For(st.agentID), now) == Verdict(true, now, Some(KindDown));
    assert [st][1..] == [];
    assert JudgeStep(e, m, true).sent == [Event(KindDown, st.agentID, now)];
    var st' := st.(down := true, downSince := now, notified := NotifyDown);
    assert map[st.agentID := st][st.agentID := st'] == map[st.agentID := st'];
  }

  lemma WatchingIsHonest(st: AgentState, now: Time)
    requires st.notified == NotifyNone && ValidAgentID(st.agentID)
    ensures Honest(Watching(st, now, []))
  {
    assert forall id :: KindsOf([], id) == [];
  }

  lemma LosesTheRecord(e: Env, st: AgentState, now: Time)
    requires FirstOutage(e, st, now)
    ensures Runs(e, Watching(st, now, []), [JudgeNext(true), WriteBack(true)], Unsaved(st, now))
    ensures Honest(Unsaved(st, now))
  {
    var m0, m := Watching(st, now, []), Unsaved(st, now);
    var m1 := Next(e, m0, JudgeNext(true));
    NotifiesAndLosesSave(e, st, now);
    WatchingIsHonest(st, now);
    hide Unsaved, Honest, Runs, ValidAgentID, Next;
    OneStepRuns(e, m0, JudgeNext(true));
    OneStepRuns(e, m1, WriteBack(true));
    RunsConcat(e, m0, [JudgeNext(true)], m1, [WriteBack(true)], m);
    assert [JudgeNext(true)] + [WriteBack(true)] == [JudgeNext(true), WriteBack(true)];
    StepStaysHonest(e, m0, JudgeNext(true));
    StepStaysHonest(e, m1, WriteBack(true));
  }

  /** A save that fails between a notification and a restart: the machine is honest, but its
      state file is not safe to restart from, and the same outage is notified again - down, down. */
  lemma LostSaveNotifiesTwice(e: Env, st: AgentState, now: Time)
    requires FirstOutage(e, st, now)
    ensures var m := Unsaved(st, now);
            && Runs(e, Watching(st, now, []), [JudgeNext(true), WriteBack(true)], m)
            && Honest(m) && !RestartSafe(m)
            && Next(e, m, Restart) == Watching(st, now, m.sent).(phase := Judging([], 0))
            && KindsOf(JudgeStep(e, Watching(st, now, m.sent), true).sent, st.agentID) == [KindDown, KindDown]
  {
    LosesTheRecord(e, st, now);
    hide Honest, Runs;
    SaveLoadIdentity(map[st.agentID := st]);
    hide ValidAgentID, LoadStates, SaveStates;
    TwoDowns(st.agentID, Event(KindDown, st.agentID, now));
    assert Judge(st, e.t.For(st.agentID), now) == Verdict(true, now, Some(KindDown));
  }

  lemma TwoDowns(id: string, ev: Event)
    requires ev.agentID == id && ev.kind == KindDown
    ensures KindsOf([ev], id) == [KindDown] && KindsOf([ev] + [ev], id) == [KindDown, KindDown]
  {
    KindsSnoc([], ev, id);
    assert [] + [ev] == [ev];
    KindsSnoc([ev], ev, id);
  }
}
