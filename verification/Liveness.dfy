/** The liveness checker: it judges every agent by its silence and notifies transitions only.

    `Check` works on a snapshot, notifies without holding the store's lock and writes its
    verdict back afterwards, while reports keep arriving. It is modelled twice: as the loop
    it is, and as a machine whose steps interleave with the store's. */
module Liveness {
  import opened Basics
  import opened ReportFiles
  import opened ReceiverStore

  const DEFAULT_INTERVAL_MULTIPLIER: nat := 3
  const MINUTE: nat := 60_000_000_000

  datatype Thresholds = Thresholds(fallback: int, perAgent: map<string, int>)
  {
    /** The agent's own threshold, else the configured one, else three times five minutes. */
    function For(id: string): (d: int)
      ensures d > 0
    {
      if id in perAgent && perAgent[id] > 0 then perAgent[id]
      else if fallback > 0 then fallback
      else DEFAULT_INTERVAL_MULTIPLIER * 5 * MINUTE
    }
  }

  /** A positive threshold of its own decides for an agent, whatever the default; then a positive
      default; without either it is 15 minutes. */
  lemma ThresholdOrder(t: Thresholds, id: string)
    ensures var own := if id in t.perAgent then t.perAgent[id] else 0;
            && (own > 0 ==> forall fallback :: t.(fallback := fallback).For(id) == own)
            && (own <= 0 && t.fallback > 0 ==> t.For(id) == t.fallback)
            && (own <= 0 && t.fallback <= 0 ==> t.For(id) == 900_000_000_000)
  {
  }

  datatype Kind = KindDown | KindRecovered

  datatype Event = Event(kind: Kind, agentID: string, occurredAt: Time)

  // ----- one agent at one check -----

  /** The verdict on an agent, and the transition to notify, if any. */
  datatype Verdict = Verdict(down: bool, downSince: Time, attempt: Option<Kind>)

  predicate IsDown(st: AgentState, th: int, now: Time) { now - st.lastSeen > th }

  function Judge(st: AgentState, th: int, now: Time): Verdict
  {
    var down := IsDown(st, th, now);
    Verdict(down,
            if !down then 0 else if st.downSince == 0 then now else st.downSince,
            if down && st.notified != NotifyDown then Some(KindDown)
            else if !down && st.notified == NotifyDown then Some(KindRecovered)
            else None)
  }

  /** What counts as notified after an attempt: a failed one changes nothing. */
  function NotifiedAfter(notified: NotifyState, attempt: Option<Kind>, delivered: bool): NotifyState
  {
    if attempt.None? || !delivered then notified
    else if attempt.value.KindDown? then NotifyDown
    else NotifyUp
  }

  /** The agent after a check of it, when nothing else happens meanwhile. */
  function CheckOne(st: AgentState, th: int, now: Time, delivered: bool): AgentState
  {
    if st.lastSeen == 0 then st
    else
      var v := Judge(st, th, now);
      st.(down := v.down, downSince := v.downSince, notified := NotifiedAfter(st.notified, v.attempt, delivered))
  }

  // ----- the checker as a loop -----

  /** One agent of a snapshot: judge, notify, write back. A failed notification still records
      the verdict; an unchanged verdict is not written. */
  function CheckAgentOf(v: StoreView, t: Thresholds, st: AgentState, now: Time, delivers: Event -> bool,
                        saveFails: string -> bool)
    : (StoreView, seq<Event>)
  {
    if st.lastSeen == 0 then (v, [])
    else
      var verdict := Judge(st, t.For(st.agentID), now);
      var id, down, since := st.agentID, verdict.down, verdict.downSince;
      if verdict.attempt.Some? && !delivers(Event(verdict.attempt.value, id, now)) then
        (SetLivenessOf(v, id, down, since, st.notified, saveFails(id)), [])
      else
        var notified := NotifiedAfter(st.notified, verdict.attempt, true);
        var sent := if verdict.attempt.Some? then [Event(verdict.attempt.value, id, now)] else [];
        if down == st.down && since == st.downSince && notified == st.notified then (v, sent)
        else (SetLivenessOf(v, id, down, since, notified, saveFails(id)), sent)
  }

  function CheckAll(v: StoreView, t: Thresholds, snapshot: seq<AgentState>, now: Time,
                    delivers: Event -> bool, saveFails: string -> bool): (StoreView, seq<Event>)
    decreases |snapshot|
  {
    if snapshot == [] then (v, [])
    else
      var r1 := CheckAgentOf(v, t, snapshot[0], now, delivers, saveFails);
      var r2 := CheckAll(r1.0, t, snapshot[1..], now, delivers, saveFails);
      (r2.0, r1.1 + r2.1)
  }

  /** The whole check, for a loop that has sent `sent` and has the agents `rest` to go. */
  function CheckOn(v: StoreView, t: Thresholds, rest: seq<AgentState>, now: Time,
                   delivers: Event -> bool, saveFails: string -> bool, sent: seq<Event>): (StoreView, seq<Event>)
  {
    var r := CheckAll(v, t, rest, now, delivers, saveFails);
    (r.0, sent + r.1)
  }

  lemma CheckOnStep(v: StoreView, t: Thresholds, rest: seq<AgentState>, now: Time,
                    delivers: Event -> bool, saveFails: string -> bool, sent: seq<Event>)
    ensures var whole := CheckOn(v, t, rest, now, delivers, saveFails, sent);
            if rest == [] then whole == (v, sent)
            else
              var r := CheckAgentOf(v, t, rest[0], now, delivers, saveFails);
              whole == CheckOn(r.0, t, rest[1..], now, delivers, saveFails, sent + r.1)
  {
    ConcatEmpty(sent);
    if rest != [] {
      var r := CheckAgentOf(v, t, rest[0], now, delivers, saveFails);
      ConcatAssoc(sent, r.1, CheckAll(r.0, t, rest[1..], now, delivers, saveFails).1);
    }
  }

  class Checker {
    const store: Store
    const thresholds: Thresholds

    constructor (store: Store, thresholds: Thresholds)
      ensures this.store == store && this.thresholds == thresholds
    {
      this.store, this.thresholds := store, thresholds;
    }

    /** Judges every agent of a snapshot and returns the notifications that went out. */
    method Check(now: Time, delivers: Event -> bool, saveFails: string -> bool)
      returns (sent: seq<Event>, ghost snapshot: seq<AgentState>)
      requires store.Valid()
      modifies store
      ensures store.Valid()
      ensures Snapshot(snapshot, old(store.states))
      ensures (store.View(), sent) == CheckAll(old(store.View()), thresholds, snapshot, now, delivers, saveFails)
    {
      sent := [];
      var states := store.States();
      snapshot := states;
      ghost var v0 := store.View();
      var i := 0;
      assert states[0..] == states;
      ConcatEmpty(CheckAll(v0, thresholds, states, now, delivers, saveFails).1);
      ghost var whole := CheckAll(v0, thresholds, states, now, delivers, saveFails);
      while i < |states|
        invariant 0 <= i <= |states| && store.Valid()
        invariant whole == CheckOn(store.View(), thresholds, states[i..], now, delivers, saveFails, sent)
      {
        CheckOnStep(store.View(), thresholds, states[i..], now, delivers, saveFails, sent);
        assert states[i..][1..] == states[i + 1..];
        var out := CheckAgent(states[i], now, delivers, saveFails);
        sent := sent + out;
        i := i + 1;
      }
      CheckOnStep(store.View(), thresholds, [], now, delivers, saveFails, sent);
    }

    method CheckAgent(st: AgentState, now: Time, delivers: Event -> bool, saveFails: string -> bool)
      returns (out: seq<Event>)
      requires store.Valid()
      modifies store
      ensures store.Valid()
      ensures (store.View(), out) == CheckAgentOf(old(store.View()), thresholds, st, now, delivers, saveFails)
    {
      out := [];
      var th := thresholds.For(st.agentID);
      if st.lastSeen == 0 {
        return;
      }
      var down := now - st.lastSeen > th;
      var downSince := st.downSince;
      if down && downSince == 0 {
        downSince := now;
      }
      if !down {
        downSince := 0;
      }
      var notified := st.notified;
      var ev := None;
      if down && notified != NotifyDown {
        ev := Some(Event(KindDown, st.agentID, now));
      } else if !down && notified == NotifyDown {
        ev := Some(Event(KindRecovered, st.agentID, now));
      }
      if ev.Some? {
        if !delivers(ev.value) {
          var _ := store.SetLiveness(st.agentID, down, downSince, notified, saveFails(st.agentID));
          return;
        }
        notified := if ev.value.kind.KindDown? then NotifyDown else NotifyUp;
        out := [ev.value];
      }
      if down == st.down && downSince == st.downSince && notified == st.notified {
        return;
      }
      var _ := store.SetLiveness(st.agentID, down, downSince, notified, saveFails(st.agentID));
    }
  }

  // ----- the checker as interleaved steps -----

  /** Where the one checker is: agents of its snapshot still to judge, or a verdict it has
      notified (or failed to) and is about to write back. */
  datatype Phase =
    | Judging(rest: seq<AgentState>, now: Time)
    | WritingBack(id: string, down: bool, downSince: Time, notified: NotifyState, rest: seq<AgentState>, now: Time)

  datatype Machine = Machine(v: StoreView, phase: Phase, sent: seq<Event>)

  datatype Step =
    | Report(rec: Record, now: Instant, f: AppendFault)
    | Ensure(id: string, name: string, saveFails: bool)
    | Begin(snapshot: seq<AgentState>, at: Time)
    | JudgeNext(delivered: bool)
    | WriteBack(saveFails: bool)
    | Restart

  datatype Env = Env(d: Codec, t: Thresholds, retentionDays: int)

  /** Reports and new agents may come at any time; a check begins when the previous one is over. */
  predicate Enabled(m: Machine, s: Step)
  {
    match s
    case Report(rec, now, f) => Nanos(now) >= 0
    case Ensure(id, name, f) => true
    case Begin(snapshot, at) => m.phase.Judging? && m.phase.rest == [] && Snapshot(snapshot, m.v.states)
    case JudgeNext(delivered) => m.phase.Judging? && m.phase.rest != []
    case WriteBack(f) => m.phase.WritingBack?
    case Restart => true
  }

  function JudgeStep(e: Env, m: Machine, delivered: bool): Machine
    requires m.phase.Judging? && m.phase.rest != []
  {
    var st, rest, now := m.phase.rest[0], m.phase.rest[1..], m.phase.now;
    if st.lastSeen == 0 then m.(phase := Judging(rest, now))
    else
      var v := Judge(st, e.t.For(st.agentID), now);
      var notified := NotifiedAfter(st.notified, v.attempt, delivered);
      var sent := if v.attempt.Some? && delivered then m.sent + [Event(v.attempt.value, st.agentID, now)] else m.sent;
      if (v.attempt.None? || delivered) && v.down == st.down && v.downSince == st.downSince
          && notified == st.notified then
        Machine(m.v, Judging(rest, now), sent)
      else
        Machine(m.v, WritingBack(st.agentID, v.down, v.downSince, notified, rest, now), sent)
  }

  /** An agent that never reported is not judged. */
  lemma UnseenIsNotJudged(e: Env, m: Machine, delivered: bool, delivers: Event -> bool, saveFails: string -> bool)
    requires m.phase.Judging? && m.phase.rest != [] && m.phase.rest[0].lastSeen == 0
    ensures JudgeStep(e, m, delivered) == m.(phase := Judging(m.phase.rest[1..], m.phase.now))
    ensures CheckAgentOf(m.v, e.t, m.phase.rest[0], m.phase.now, delivers, saveFails) == (m.v, [])
  {
  }

  function Next(e: Env, m: Machine, s: Step): Machine
    requires Enabled(m, s)
  {
    match s
    case Report(rec, now, f) => m.(v := AppendTo(e.d, m.v, rec, now, e.retentionDays, f).0)
    case Ensure(id, name, f) => m.(v := EnsureIn(m.v, id, name, f))
    case Begin(snapshot, at) => m.(phase := Judging(snapshot, at))
    case JudgeNext(delivered) => JudgeStep(e, m, delivered)
    case WriteBack(f) =>
      var p := m.phase;
      m.(v := SetLivenessOf(m.v, p.id, p.down, p.downSince, p.notified, f), phase := Judging(p.rest, p.now))
    case Restart => m.(v := m.v.(states := LoadStates(m.v.saved)), phase := Judging([], 0))
  }

  // ----- what was notified -----

  function KindsOf(sent: seq<Event>, id: string): seq<Kind>
  {
    if sent == [] then []
    else KindsOf(sent[..|sent| - 1], id) + (if sent[|sent| - 1].agentID == id then [sent[|sent| - 1].kind] else [])
  }

  /** down, recovered, down, ... */
  predicate Alternates(kinds: seq<Kind>)
  {
    forall i :: 0 <= i < |kinds| ==> kinds[i] == if i % 2 == 0 then KindDown else KindRecovered
  }

  predicate LastIsDown(kinds: seq<Kind>) { kinds != [] && kinds[|kinds| - 1] == KindDown }

  function NotifiedIn(states: map<string, AgentState>, id: string): NotifyState
  {
    if id in states then states[id].notified else NotifyNone
  }

  /** What the running checker knows about an agent's last notification. */
  function Known(m: Machine, id: string): NotifyState
  {
    if m.phase.WritingBack? && m.phase.id == id then m.phase.notified else NotifiedIn(m.v.states, id)
  }

  /** Two states of an agent carry the same verdict and the same record of notifications. */
  predicate SameVerdict(a: AgentState, b: AgentState)
  {
    a.down == b.down && a.downSince == b.downSince && a.notified == b.notified
  }

  /** The snapshot is as good as new where it matters: nobody else changes what the checker has
      found and notified. */
  predicate SnapshotCurrent(m: Machine)
  {
    && (forall i :: 0 <= i < |m.phase.rest| ==>
          && m.phase.rest[i].agentID in m.v.states
          && SameVerdict(m.v.states[m.phase.rest[i].agentID], m.phase.rest[i])
          && (m.phase.WritingBack? ==> m.phase.id != m.phase.rest[i].agentID))
    && (forall i, j :: 0 <= i < j < |m.phase.rest| ==> m.phase.rest[i].agentID != m.phase.rest[j].agentID)
    && (m.phase.WritingBack? ==> m.phase.id in m.v.states)
  }

  /** Holds of every machine, whatever has happened to it. */
  predicate Tracked(m: Machine) { Keyed(m.v.states) && SnapshotCurrent(m) }

  /** The notifications of one agent alternate so far, and the checker knows whether the last
      one said that the agent is down. */
  predicate Told(m: Machine, id: string)
  {
    var kinds := KindsOf(m.sent, id);
    && Alternates(kinds)
    && (Known(m, id) == NotifyDown <==> LastIsDown(kinds))
    && (kinds != [] ==> ValidAgentID(id))
  }

  ghost predicate Honest(m: Machine) { Tracked(m) && forall id :: Told(m, id) }

  /** After a restart the checker would know, for every agent, whether the last notification
      said that it is down. */
  ghost predicate RestartSafe(m: Machine)
  {
    forall id :: NotifiedIn(LoadStates(m.v.saved), id) == NotifyDown <==> LastIsDown(KindsOf(m.sent, id))
  }

  lemma KindsSnoc(sent: seq<Event>, ev: Event, id: string)
    ensures KindsOf(sent + [ev], id) == if ev.agentID == id then KindsOf(sent, id) + [ev.kind] else KindsOf(sent, id)
  {
    assert (sent + [ev])[..|sent|] == sent;
    ConcatEmpty(KindsOf(sent, id));
  }

  lemma UpdateKeepsVerdict(d: Codec, st: AgentState, e: Entry)
    ensures SameVerdict(Update(d, st, e), st)
    ensures Update(d, st, e).agentID == st.agentID && Update(d, st, e).lastSeen == e.at
  {
  }

  // ----- the snapshot stays current -----

  lemma VerdictsStay(d: Codec, v: StoreView, rec: Record, now: Instant, retentionDays: int, f: AppendFault)
    requires Nanos(now) >= 0 && Keyed(v.states)
    ensures var states := AppendTo(d, v, rec, now, retentionDays, f).0.states;
            && Keyed(states)
            && (forall id :: id in v.states ==> id in states && SameVerdict(states[id], v.states[id]))
            && (forall id :: NotifiedIn(states, id) == NotifiedIn(v.states, id))
  {
    if Accepted(rec, f) {
      var st := if rec.agentID in v.states then v.states[rec.agentID] else Blank(rec.agentID, "");
      UpdateKeepsVerdict(d, st, EntryOf(rec, now));
    }
    hide Update, ValidAgentID, SaveStates, FilesAfter, EntryOf;
  }

  lemma ReportKeepsTracked(e: Env, m: Machine, s: Step)
    requires s.Report? && Enabled(m, s) && Tracked(m)
    ensures Tracked(Next(e, m, s))
    ensures forall id :: Known(Next(e, m, s), id) == Known(m, id)
  {
    VerdictsStay(e.d, m.v, s.rec, s.now, e.retentionDays, s.f);
    hide AppendTo, Keyed, NotifiedIn;
  }

  lemma BeginKeepsTracked(e: Env, m: Machine, s: Step)
    requires s.Begin? && Enabled(m, s) && Tracked(m)
    ensures Tracked(Next(e, m, s))
  {
    hide ValidAgentID;
    forall i, j | 0 <= i < j < |s.snapshot|
      ensures s.snapshot[i].agentID != s.snapshot[j].agentID
    {
      BeforeIsTotal(s.snapshot[i].agentID, s.snapshot[j].agentID);
    }
  }

  lemma JudgeKeepsTracked(e: Env, m: Machine, delivered: bool)
    requires Tracked(m) && m.phase.Judging? && m.phase.rest != []
    ensures Tracked(JudgeStep(e, m, delivered))
  {
    hide Judge, ValidAgentID;
  }

  lemma LoadedAreKeyed(saved: Option<map<string, Option<AgentState>>>)
    ensures Keyed(LoadStates(saved))
  {
  }

  /** Every step of every interleaving, restarts of any kind included. */
  lemma StepKeepsTracked(e: Env, m: Machine, s: Step)
    requires Enabled(m, s) && Tracked(m)
    ensures Tracked(Next(e, m, s))
  {
    match s
    case Report(rec, now, f) => ReportKeepsTracked(e, m, s);
    case Ensure(id, name, f) => hide ValidAgentID;
    case Begin(snapshot, at) => BeginKeepsTracked(e, m, s);
    case JudgeNext(delivered) => JudgeKeepsTracked(e, m, delivered);
    case WriteBack(f) => hide ValidAgentID;
    case Restart => LoadedAreKeyed(m.v.saved);
  }

  // ----- the record of notifications stays true -----

  lemma AlternationEnds(kinds: seq<Kind>)
    requires Alternates(kinds)
    ensures LastIsDown(kinds) <==> |kinds| % 2 == 1
  {
  }

  /** A transition is attempted only if it is the one that comes next in the alternation. */
  lemma AttemptIsNext(kinds: seq<Kind>, st: AgentState, th: int, now: Time)
    requires Alternates(kinds) && (st.notified == NotifyDown <==> LastIsDown(kinds))
    requires Judge(st, th, now).attempt.Some?
    ensures var attempt := Judge(st, th, now).attempt;
            Alternates(kinds + [attempt.value])
            && (NotifiedAfter(st.notified, attempt, true) == NotifyDown <==> LastIsDown(kinds + [attempt.value]))
  {
    AlternationEnds(kinds);
  }

  /** What judging one agent changes about what was sent and what is known. */
  lemma JudgeTells(e: Env, m: Machine, delivered: bool, id: string)
    requires Tracked(m) && m.phase.Judging? && m.phase.rest != []
    ensures var st := m.phase.rest[0];
            var m', attempt := JudgeStep(e, m, delivered), Judge(st, e.t.For(st.agentID), m.phase.now).attempt;
            var told := st.lastSeen != 0 && attempt.Some? && delivered;
            && m'.sent == (if told then m.sent + [Event(attempt.value, st.agentID, m.phase.now)] else m.sent)
            && Known(m, st.agentID) == st.notified && ValidAgentID(st.agentID)
            && Known(m', id)
               == if told && id == st.agentID then NotifiedAfter(st.notified, attempt, true) else Known(m, id)
  {
    assert m.phase.rest[0].agentID in m.v.states;
    hide Judge, ValidAgentID;
  }

  lemma JudgeKeepsTold(e: Env, m: Machine, delivered: bool, id: string)
    requires Tracked(m) && m.phase.Judging? && m.phase.rest != []
    requires Told(m, id)
    ensures Told(JudgeStep(e, m, delivered), id)
  {
    var st, now := m.phase.rest[0], m.phase.now;
    var attempt := Judge(st, e.t.For(st.agentID), now).attempt;
    JudgeTells(e, m, delivered, id);
    hide Tracked, JudgeStep, Known, KindsOf, Alternates, LastIsDown, ValidAgentID, NotifiedAfter;
    if st.lastSeen != 0 && attempt.Some? && delivered {
      KindsSnoc(m.sent, Event(attempt.value, st.agentID, now), id);
      if id == st.agentID {
        AttemptIsNext(KindsOf(m.sent, id), st, e.t.For(id), now);
      }
    }
  }

  lemma StepKeepsTold(e: Env, m: Machine, s: Step, id: string)
    requires Enabled(m, s) && !s.Restart? && Tracked(m) && Told(m, id)
    ensures Told(Next(e, m, s), id)
  {
    hide KindsOf, Alternates, LastIsDown, ValidAgentID;
    match s
    case Report(rec, now, f) => ReportKeepsTracked(e, m, s);
    case Ensure(_, name, f) =>
    case Begin(snapshot, at) =>
    case JudgeNext(delivered) => JudgeKeepsTold(e, m, delivered, id);
    case WriteBack(f) =>
  }

  lemma RestartKeepsTold(e: Env, m: Machine, id: string)
    requires Told(m, id)
    requires NotifiedIn(LoadStates(m.v.saved), id) == NotifyDown <==> LastIsDown(KindsOf(m.sent, id))
    ensures Told(Next(e, m, Restart), id)
  {
  }

  lemma StepStaysHonest(e: Env, m: Machine, s: Step)
    requires Enabled(m, s) && Honest(m)
    requires s.Restart? ==> RestartSafe(m)
    ensures Honest(Next(e, m, s))
  {
    hide Told, Tracked, Enabled, Next;
    StepKeepsTracked(e, m, s);
    forall id
      ensures Told(Next(e, m, s), id)
    {
      if s.Restart? {
        RestartKeepsTold(e, m, id);
      } else {
        StepKeepsTold(e, m, s, id);
      }
    }
  }

  // ----- runs -----

  ghost predicate RunOk(e: Env, m: Machine, steps: seq<Step>)
    decreases |steps|
  {
    steps == [] ||
    (Enabled(m, steps[0]) && (steps[0].Restart? ==> RestartSafe(m)) && RunOk(e, Next(e, m, steps[0]), steps[1..]))
  }

  ghost function Run(e: Env, m: Machine, steps: seq<Step>): Machine
    requires RunOk(e, m, steps)
    decreases |steps|
  {
    if steps == [] then m else Run(e, Next(e, m, steps[0]), steps[1..])
  }

  lemma {:induction false} RunStaysHonest(e: Env, m: Machine, steps: seq<Step>)
    requires Honest(m) && RunOk(e, m, steps)
    ensures Honest(Run(e, m, steps))
    decreases |steps|
  {
    if steps != [] {
      hide Honest, Enabled, Next, RestartSafe;
      StepStaysHonest(e, m, steps[0]);
      RunStaysHonest(e, Next(e, m, steps[0]), steps[1..]);
    }
  }

  /** A monitor set up for the first time. */
  predicate New(m: Machine)
  {
    m.v.states == map[] && m.phase == Judging([], 0) && m.sent == []
  }

  lemma NewIsHonest(m: Machine)
    requires New(m)
    ensures Honest(m)
  {
    assert forall i :: KindsOf(m.sent, i) == [];
  }

  /** For every agent the notifications that went out alternate: down, recovered, down, ...,
      in every interleaving of reports with the checker's snapshot, notification and write-back,
      whatever saves fail, and across safe restarts. */
  lemma NotificationsAlternate(e: Env, m: Machine, steps: seq<Step>, id: string)
    requires New(m) && RunOk(e, m, steps)
    ensures Alternates(KindsOf(Run(e, m, steps).sent, id))
  {
    NewIsHonest(m);
    RunStaysHonest(e, m, steps);
    assert Told(Run(e, m, steps), id);
  }
}
