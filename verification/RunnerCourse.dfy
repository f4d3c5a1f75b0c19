/** The course of a run as it is seen from outside: which setup steps it goes through, in which
    order, what each of them acquires, which of them ends the run, and what the run returns. */
module RunnerCourse {
  import opened Basics
  import opened Runner

  // ----- the course, by position -----

  /** Step `k` of every run that gets that far. */
  predicate InCourse(cfg: Config, k: nat, s: SetupStep)
  {
    if k == 0 then s.Start?
    else if k == 1 then s.TryGuard?
    else if k == 2 then s.TakeLock?
    else if k == 3 then s.Verify?
    else if k == 4 then s.SetTimeout?
    else if k <= 5 + cfg.services then s.StartService?
    else k == 6 + cfg.services && s.StartHeartbeat?
  }

  /** Step `k` is the call of a service, and not the end of the list. */
  predicate CallsService(cfg: Config, k: nat) { 5 <= k < 5 + cfg.services }

  /** What step `k` of the course acquires. */
  function Yield(cfg: Config, k: nat, e: Event): seq<Resource>
    requires InCourse(cfg, k, e.step)
  {
    if k == 0 then [DoneSignal]
    else if k == 1 then (if e.guardFree then [Guard] else [])
    else if k == 2 then (if cfg.lockPath && e.step.ok then [FileLock] else [])
    else if k == 4 then (if cfg.timeout then [Timeout] else [])
    else if CallsService(cfg, k) then (if !e.canceled && e.step.ok && e.step.hasStop then [Service(k - 5)] else [])
    else if k == 6 + cfg.services then [Heartbeat]
    else []
  }

  /** The setup fails at step `k`: the lock is not to be had, the license is not verified, a
      service does not start. */
  predicate Fails(cfg: Config, k: nat, e: Event)
    requires InCourse(cfg, k, e.step)
  {
    || (k == 2 && cfg.lockPath && !e.step.ok)
    || (k == 3 && !e.step.ok)
    || (CallsService(cfg, k) && !e.canceled && !e.step.ok)
  }

  /** The result with which step `k` ends the run, if it does. */
  function Ends(cfg: Config, k: nat, e: Event): Option<Result>
    requires InCourse(cfg, k, e.step)
  {
    if Fails(cfg, k, e) then Some(ErrSetup)
    else if k == 1 && !e.guardFree then Some(ErrAlreadyRunning)
    else if CallsService(cfg, k) && e.canceled then Some(ErrCanceled)
    else None
  }

  predicate OnCourse(cfg: Config, events: seq<Event>)
  {
    forall k :: 0 <= k < |events| ==> InCourse(cfg, k, events[k].step)
  }

  function Yields(cfg: Config, events: seq<Event>): seq<Resource>
    requires OnCourse(cfg, events)
  {
    if events == [] then []
    else
      var last := |events| - 1;
      Yields(cfg, events[..last]) + Yield(cfg, last, events[last])
  }

  /** How many setup steps lie behind a phase. */
  function Behind(cfg: Config, phase: Phase): nat
  {
    match phase
    case NotStarted => 0
    case AtGuard => 1
    case AtLock => 2
    case AtVerify => 3
    case AtTimeout => 4
    case AtService(i) => 5 + i
    case AtHeartbeat => 6 + cfg.services
    case _ => 7 + cfg.services
  }

  /** No step ended the run. */
  predicate GoesOn(cfg: Config, events: seq<Event>)
    requires OnCourse(cfg, events)
  {
    forall k :: 0 <= k < |events| ==> Ends(cfg, k, events[k]) == None
  }

  /** The run has gone through the course up to where it is, or to the step that ended it, and
      has acquired what these steps yield, nothing before, between or after. */
  predicate CourseOk(r: Run)
  {
    && OnCourse(r.cfg, r.events)
    && r.acquired == Yields(r.cfg, r.events)
    && (!Leaving(r.phase) ==>
          && |r.events| == Behind(r.cfg, r.phase) && GoesOn(r.cfg, r.events)
          && (r.phase.AtService? ==> r.phase.i <= r.cfg.services))
    && (Leaving(r.phase) ==> r.result.Some? && (SetupEnded(r) || SetupDone(r)))
  }

  predicate SetupEnded(r: Run)
    requires OnCourse(r.cfg, r.events)
  {
    var last := |r.events| - 1;
    && r.events != [] && GoesOn(r.cfg, r.events[..last])
    && Ends(r.cfg, last, r.events[last]) == r.result && r.group.workers == [] && r.cycles == []
  }

  predicate SetupDone(r: Run)
    requires OnCourse(r.cfg, r.events)
  {
    |r.events| == 7 + r.cfg.services && GoesOn(r.cfg, r.events)
  }

  lemma OneMoreEvent(cfg: Config, events: seq<Event>, e: Event)
    requires OnCourse(cfg, events) && InCourse(cfg, |events|, e.step)
    ensures OnCourse(cfg, events + [e])
    ensures Yields(cfg, events + [e]) == Yields(cfg, events) + Yield(cfg, |events|, e)
    ensures GoesOn(cfg, events + [e]) <==> GoesOn(cfg, events) && Ends(cfg, |events|, e) == None
  {
    var all := events + [e];
    assert all[..|events|] == events;
    hide Yield, Ends, InCourse;
    assert forall k :: 0 <= k < |events| ==> all[k] == events[k];
    if GoesOn(cfg, all) {
      assert Ends(cfg, |events|, all[|events|]) == None;
    }
  }

  /** What a setup step does is what its place in the course says. */
  lemma MoveIsInCourse(r: Run, s: SetupStep, guardFree: bool)
    requires SetupEnabled(r, s) && Behind(r.cfg, r.phase) == |r.events|
    requires r.phase.AtService? ==> r.phase.i <= r.cfg.services
    ensures var k := |r.events|;
            var e := Event(s, r.canceled, guardFree);
            var m := SetupMove(r.cfg, r.phase, r.canceled, s, guardFree);
            && InCourse(r.cfg, k, s)
            && Yield(r.cfg, k, e) == (if m.Take? then [m.x] else [])
            && Ends(r.cfg, k, e) == (if m.Quit? then Some(m.why) else None)
            && (!m.Quit? ==> !Leaving(m.next) && Behind(r.cfg, m.next) == k + 1
                             && (m.next.AtService? ==> m.next.i <= r.cfg.services))
  {
  }

  lemma SetupPhases(r: Run, s: SetupStep, guardFree: bool)
    requires SetupEnabled(r, s)
    ensures !Leaving(r.phase) && !HasWorkers(r.phase) && HasWorkers(Unwinding)
    ensures var m := SetupMove(r.cfg, r.phase, r.canceled, s, guardFree); !m.Quit? ==> !HasWorkers(m.next)
  {
  }

  lemma SetupKeepsCourse(r: Run, s: SetupStep, guardFree: bool)
    requires SetupEnabled(r, s) && CourseOk(r) && r.group.workers == [] && r.cycles == []
    ensures CourseOk(RunNext(r, Setup(s), guardFree))
  {
    hide SetupMove, SetupEnabled, Yield, Yields, Ends, InCourse, OnCourse, Behind, GoesOn, HasWorkers;
    SetupPhases(r, s, guardFree);
    MoveIsInCourse(r, s, guardFree);
    var e := Event(s, r.canceled, guardFree);
    OneMoreEvent(r.cfg, r.events, e);
    ConcatEmpty(r.acquired);
    assert (r.events + [e])[..|r.events|] == r.events;
  }

  lemma MainKeepsCourse(r: Run, s: MainStep, guardFree: bool)
    requires MainEnabled(r, s) && CourseOk(r)
    ensures CourseOk(RunNext(r, Main(s), guardFree))
  {
    hide Yields, Ends, InCourse, OnCourse, GoesOn, AllExited;
  }

  lemma StepKeepsCourse(r: Run, s: RunStep, guardFree: bool)
    requires RunEnabled(r, s) && CourseOk(r)
    requires !HasWorkers(r.phase) ==> r.group.workers == [] && r.cycles == []
    ensures CourseOk(RunNext(r, s, guardFree))
  {
    hide SetupMove, WorkerNext, Yield, Yields, Ends, InCourse, OnCourse, GoesOn, SetupEnabled, AllExited;
    match s
    case Setup(s) =>
      SetupPhases(r, s, guardFree);
      SetupKeepsCourse(r, s, guardFree);
    case Main(s) => MainKeepsCourse(r, s, guardFree);
    case _ =>
  }

  // ----- collecting -----

  /** The errors among the cycles' outcomes, in order. */
  function Errors(cycles: seq<Option<nat>>): seq<nat>
  {
    if cycles == [] then []
    else
      var last := |cycles| - 1;
      Errors(cycles[..last]) + (if cycles[last].Some? then [cycles[last].value] else [])
  }

  lemma ErrorsSnoc(cycles: seq<Option<nat>>, c: Option<nat>)
    ensures Errors(cycles + [c]) == Errors(cycles) + (if c.Some? then [c.value] else [])
  {
    assert (cycles + [c])[..|cycles|] == cycles;
  }

  /** A run that collects once runs one cycle and returns its outcome; any other runs one worker
      for each group and leaves when they have exited. */
  predicate CyclesOk(r: Run)
  {
    && (!HasWorkers(r.phase) ==> r.cycles == [])
    && (r.group.workers == [] ==> r.group.failures == [])
    && (r.phase.Spawning? || r.phase.AwaitCancel? || r.phase.AwaitWorkers? ==> !r.cfg.once && r.cfg.groups > 0)
    && (r.phase.AwaitCancel? || r.phase.AwaitWorkers? ==> |r.group.workers| == r.cfg.groups)
    && (r.cfg.once ==> r.group.workers == [])
    && (!r.cfg.once && r.cfg.returnFailure ==> r.group.failures == Errors(r.cycles))
    && (Leaving(r.phase) && OnCourse(r.cfg, r.events) && SetupDone(r) ==>
          if r.cfg.once then
            |r.cycles| == 1 && r.result == Some(if r.cycles[0].Some? then ErrCycle(r.cycles[0].value) else Success)
          else
            |r.group.workers| == r.cfg.groups && (r.cfg.groups == 0 ==> r.result == Some(Success)))
  }

  /** Nobody stops collecting, no service is stopped and no heartbeat waited for, unless the run
      is cancelled. */
  predicate CancelOk(r: Run)
  {
    && (r.phase.AwaitWorkers? ==> r.canceled)
    && (r.group.canceledByWorker ==> r.canceled)
    && (forall w :: 0 <= w < |r.group.workers| && r.group.workers[w].Exited? ==> r.canceled)
    && (forall x :: x in r.released && (x.Service? || x.Heartbeat? || x.DoneSignal?) ==> r.canceled)
  }

  /** A setup step leads on towards collecting, or it ends the run there and then. */
  lemma SetupLeadsOn(r: Run, s: SetupStep, guardFree: bool)
    requires SetupEnabled(r, s) && CourseOk(r)
    ensures var r' := RunNext(r, Setup(s), guardFree);
            && !Leaving(r.phase) && !HasWorkers(r.phase) && r'.cfg == r.cfg && r'.group == r.group
            && r'.cycles == r.cycles
            && (HasWorkers(r'.phase) ==> Leaving(r'.phase) && OnCourse(r'.cfg, r'.events) && !SetupDone(r'))
  {
    hide SetupMove, SetupEnabled, Yield, Yields, Ends, InCourse, OnCourse, Behind, GoesOn, HasWorkers;
    SetupPhases(r, s, guardFree);
    MoveIsInCourse(r, s, guardFree);
    OneMoreEvent(r.cfg, r.events, Event(s, r.canceled, guardFree));
  }

  lemma SetupKeepsCycles(r: Run, s: SetupStep, guardFree: bool)
    requires SetupEnabled(r, s) && CourseOk(r) && CyclesOk(r) && r.group.workers == []
    ensures CyclesOk(RunNext(r, Setup(s), guardFree))
  {
    SetupLeadsOn(r, s, guardFree);
    hide RunNext, SetupEnabled, OnCourse, SetupDone, CourseOk;
  }

  lemma WorkKeepsCycles(r: Run, w: nat, s: WorkerStep, guardFree: bool)
    requires WorkerEnabled(r.group, w, s, r.canceled) && CyclesOk(r) && WorkersOk(r)
    ensures CyclesOk(RunNext(r, Work(w, s), guardFree))
  {
    assert !Leaving(r.phase) && HasWorkers(r.phase);
    if s.CycleEnds? {
      ErrorsSnoc(r.cycles, s.failed);
      ConcatEmpty(Errors(r.cycles));
    }
    hide Errors, OnCourse;
  }

  lemma MainKeepsCycles(r: Run, s: MainStep, guardFree: bool)
    requires MainEnabled(r, s) && CyclesOk(r) && WorkersOk(r) && CourseOk(r)
    ensures CyclesOk(RunNext(r, Main(s), guardFree))
  {
    hide Errors, OnCourse, GoesOn, Yields;
  }

  lemma StepKeepsCycles(r: Run, s: RunStep, guardFree: bool)
    requires RunEnabled(r, s) && CyclesOk(r) && WorkersOk(r) && CourseOk(r)
    ensures CyclesOk(RunNext(r, s, guardFree))
  {
    hide SetupMove, WorkerNext, MainNext, OnCourse, GoesOn, Yields, Errors;
    match s
    case Setup(s) => SetupKeepsCycles(r, s, guardFree);
    case Work(w, s) => WorkKeepsCycles(r, w, s, guardFree);
    case Main(s) => MainKeepsCycles(r, s, guardFree);
    case _ =>
  }

  lemma WorkKeepsCancel(r: Run, w: nat, s: WorkerStep, guardFree: bool)
    requires WorkerEnabled(r.group, w, s, r.canceled) && CancelOk(r)
    ensures CancelOk(RunNext(r, Work(w, s), guardFree))
  {
    var r' := RunNext(r, Work(w, s), guardFree);
    assert r'.group.workers[w].Exited? ==> r'.canceled;
    assert forall i :: 0 <= i < |r.group.workers| && i != w ==> r'.group.workers[i] == r.group.workers[i];
  }

  lemma StepKeepsCancel(r: Run, s: RunStep, guardFree: bool)
    requires RunEnabled(r, s) && CancelOk(r)
    ensures CancelOk(RunNext(r, s, guardFree))
  {
    hide WorkerNext, WorkerEnabled;
    match s
    case Setup(_) =>
    case Work(w, s) => WorkKeepsCancel(r, w, s, guardFree);
    case _ => hide SetupMove;
  }

  /** A run is cancelled by a Close of a running one, by its parent or its timeout, by a worker,
      or on its way out, and by nothing else. */
  lemma CanceledByWhom(r: Run, s: RunStep, guardFree: bool)
    requires RunEnabled(r, s)
    ensures RunNext(r, s, guardFree).canceled <==>
            || r.canceled || s.Cancel? || s.CancelDeferred?
            || (s.Close? && !r.phase.NotStarted? && !r.phase.Finished?)
            || (s.Work? && s.step.CancelGroup?)
  {
    hide SetupMove, WorkerNext;
  }

  /** The heartbeat runs from its start to the cancellation, if there is a license for it. */
  predicate HeartbeatOk(r: Run)
  {
    && (|r.events| < 7 + r.cfg.services ==> !r.heartbeat)
    && (OnCourse(r.cfg, r.events) && |r.events| == 7 + r.cfg.services && !r.canceled ==>
          (r.heartbeat <==> r.events[6 + r.cfg.services].step.licensed))
  }

  lemma StepKeepsHeartbeat(r: Run, s: RunStep, guardFree: bool)
    requires RunEnabled(r, s) && HeartbeatOk(r) && CourseOk(r)
    ensures HeartbeatOk(RunNext(r, s, guardFree))
  {
    hide WorkerNext, WorkerEnabled, Yields, Ends, GoesOn, ReleaseEnabled;
    if s.Setup? {
      SetupPhases(r, s.setup, guardFree);
      MoveIsInCourse(r, s.setup, guardFree);
      hide SetupMove, Yield;
    } else {
      hide SetupMove;
    }
  }

  // ----- every reachable runner -----

  predicate Told(r: Run) { RunInv(r) && CourseOk(r) && CyclesOk(r) && CancelOk(r) && HeartbeatOk(r) }

  lemma StepKeepsTold(r: Run, s: RunStep, guardFree: bool)
    requires RunEnabled(r, s) && Told(r)
    ensures Told(RunNext(r, s, guardFree))
  {
    assert !HasWorkers(r.phase) ==> r.group.workers == [] && r.cycles == [];
    hide RunEnabled, RunNext, CourseOk, CyclesOk, CancelOk, HeartbeatOk, GroupOk, HeldOk, HistoryOk, WorkersOk,
        HasWorkers;
    StepKeepsRunInv(r, s, guardFree);
    StepKeepsCourse(r, s, guardFree);
    StepKeepsCycles(r, s, guardFree);
    StepKeepsCancel(r, s, guardFree);
    StepKeepsHeartbeat(r, s, guardFree);
  }

  lemma NewRunIsTold(cfg: Config)
    ensures Told(NewRun(cfg))
  {
    NewRunIsOk(cfg);
  }

  lemma {:induction false} RunKeepsTold(p: Process, steps: seq<Step>, i: nat)
    requires RunOk(p, steps) && i < |p.runs| && Told(p.runs[i])
    ensures Told(Execute(p, steps).runs[i])
    decreases |steps|
  {
    hide Told, RunEnabled, RunNext;
    if steps != [] {
      if steps[0].i == i {
        StepKeepsTold(p.runs[i], steps[0].s, p.guard.None?);
      }
      RunKeepsTold(Next(p, steps[0]), steps[1..], i);
    }
  }

  lemma ReachedIsTold(cfgs: seq<Config>, steps: seq<Step>, i: nat)
    requires RunOk(NewProcess(cfgs), steps) && i < |cfgs|
    ensures Told(RunnerAfter(cfgs, steps, i))
  {
    NewRunIsTold(cfgs[i]);
    hide Told, RunOk, Execute;
    RunKeepsTold(NewProcess(cfgs), steps, i);
  }

  /** Whatever else happens in the process, a runner goes through its course in order and has
      acquired exactly what these steps yield; until it leaves it holds all of it. So it works
      under its file lock, within its timeout and with all its services. */
  lemma WorksUnderItsLock(cfgs: seq<Config>, steps: seq<Step>, i: nat)
    requires RunOk(NewProcess(cfgs), steps) && i < |cfgs|
    ensures var r := RunnerAfter(cfgs, steps, i);
            && OnCourse(r.cfg, r.events) && r.acquired == Yields(r.cfg, r.events)
            && (!Leaving(r.phase) ==>
                  && r.held == r.acquired
                  && (forall k :: 0 <= k < |r.events| ==> !Fails(r.cfg, k, r.events[k]))
                  && (|r.events| > 2 && r.cfg.lockPath ==> FileLock in r.held)
                  && (|r.events| > 4 && r.cfg.timeout ==> Timeout in r.held)
                  && (forall k :: 5 <= k < |r.events| && CallsService(r.cfg, k) && r.events[k].step.hasStop ==>
                        Service(k - 5) in r.held)
                  && (|r.events| == 7 + r.cfg.services && !r.canceled ==>
                        (r.heartbeat <==> r.events[6 + r.cfg.services].step.licensed))
                  && |r.events| == Behind(r.cfg, r.phase))
  {
    ReachedIsTold(cfgs, steps, i);
    var r := RunnerAfter(cfgs, steps, i);
    hide RunnerAfter, RunOk, GroupOk, HeldOk, SignalsOk, WorkersOk, ResultOk, CyclesOk, CancelOk, Ordered, Yields,
        Behind;
    if !Leaving(r.phase) {
      ConcatEmpty(r.held);
      forall k: nat | k < |r.events|
        ensures !Fails(r.cfg, k, r.events[k])
        ensures forall x :: x in Yield(r.cfg, k, r.events[k]) ==> x in r.held
        ensures CallsService(r.cfg, k) ==> !r.events[k].canceled
      {
        assert Ends(r.cfg, k, r.events[k]) == None;
        YieldIsIn(r.cfg, r.events, k);
      }
      assert |r.events| > 2 && r.cfg.lockPath ==> FileLock in Yield(r.cfg, 2, r.events[2]);
      assert |r.events| > 4 && r.cfg.timeout ==> Timeout in Yield(r.cfg, 4, r.events[4]);
    }
  }

  lemma {:induction false} YieldIsIn(cfg: Config, events: seq<Event>, k: nat)
    requires OnCourse(cfg, events) && k < |events|
    ensures forall x :: x in Yield(cfg, k, events[k]) ==> x in Yields(cfg, events)
  {
    hide Yield, InCourse;
    var last := |events| - 1;
    if k < last {
      YieldIsIn(cfg, events[..last], k);
      assert events[..last][k] == events[k];
    }
  }

  /** What a run that got through its setup returns. */
  predicate Returned(r: Run)
  {
    && r.result.Some?
    && (r.cfg.once || r.cfg.returnFailure ==> (r.result == Some(Success) <==> Errors(r.cycles) == []))
    && (!r.cfg.once && !r.cfg.returnFailure ==> r.result == Some(Success))
    && (r.result != Some(Success) ==> r.result.value.ErrCycle? && r.result.value.e in Errors(r.cycles))
    && (!r.cfg.once ==> |r.group.workers| == r.cfg.groups && AllExited(r.group) && (r.cfg.groups > 0 ==> r.canceled))
  }

  lemma OnceReturns(r: Run)
    requires Told(r) && Leaving(r.phase) && SetupDone(r) && r.cfg.once
    ensures Returned(r)
  {
    assert OnCourse(r.cfg, r.events);
    hide RunInv, CourseOk, CancelOk, OnCourse, GoesOn, Yields;
    ErrorsOfOne(r.cycles);
    hide Errors, HasWorkers;
  }

  lemma ErrorsOfOne(cycles: seq<Option<nat>>)
    requires |cycles| == 1
    ensures Errors(cycles) == if cycles[0].Some? then [cycles[0].value] else []
  {
    assert Errors(cycles[..0]) == [];
  }

  lemma WorkersReturn(r: Run)
    requires Told(r) && Leaving(r.phase) && SetupDone(r) && !r.cfg.once
    ensures Returned(r)
  {
    hide HeldOk, HistoryOk, SignalsOk, OnCourse, GoesOn, Yields, CountFailed, Errors;
    var g := r.group;
    if g.workers != [] {
      assert g.workers[0].Exited?;
      if g.deposits != [] {
        assert g.deposits[0] in g.deposits;
      }
    }
  }

  lemma SetupReturns(r: Run)
    requires CourseOk(r) && Leaving(r.phase)
    ensures var last := |r.events| - 1;
            && r.events != [] && GoesOn(r.cfg, r.events[..last])
            && (Ends(r.cfg, last, r.events[last]) != None ==> r.result == Ends(r.cfg, last, r.events[last]))
            && (Ends(r.cfg, last, r.events[last]) == None ==> SetupDone(r))
  {
    hide Ends, InCourse, Yields;
  }

  /** What Run returns: a setup error if and only if a setup step failed, and then as its last
      step; `already running` if and only if it found the guard taken; the cancellation if and
      only if it was cancelled before a service; else the outcome of its only cycle, or the
      failure of a worker, if there was one and the policy is to return it. */
  lemma ReturnsExactly(cfgs: seq<Config>, steps: seq<Step>, i: nat)
    requires RunOk(NewProcess(cfgs), steps) && i < |cfgs|
    requires Leaving(RunnerAfter(cfgs, steps, i).phase)
    ensures var r := RunnerAfter(cfgs, steps, i);
            && OnCourse(r.cfg, r.events) && r.events != [] && GoesOn(r.cfg, r.events[..|r.events| - 1])
            && var last := |r.events| - 1;
               var e := r.events[last];
               && (r.result == Some(ErrSetup) <==> Fails(r.cfg, last, e))
               && (r.result == Some(ErrAlreadyRunning) <==> last == 1 && !e.guardFree)
               && (r.result == Some(ErrCanceled) <==> CallsService(r.cfg, last) && e.canceled)
               && (Ends(r.cfg, last, e) == None ==> last == 6 + r.cfg.services && Returned(r))
  {
    ReachedIsTold(cfgs, steps, i);
    var r := RunnerAfter(cfgs, steps, i);
    hide RunnerAfter, RunOk, RunInv, CyclesOk, CancelOk, Yields, GoesOn, Errors, AllExited;
    SetupReturns(r);
    if SetupDone(r) {
      if r.cfg.once {
        OnceReturns(r);
      } else {
        WorkersReturn(r);
      }
    }
  }
}
