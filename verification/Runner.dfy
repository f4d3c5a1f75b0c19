/** The agent's runner: one run acquires its resources step by step, runs a worker per group,
    and on every way out releases what it holds in reverse order.

    Run and Close are modelled as the steps that other goroutines can observe, for any number
    of runners in one process. */
module Runner {
  import opened Basics

  // ----- grouping tasks -----

  function InGroup<T, K(==)>(values: seq<T>, key: T -> K, name: K): seq<T>
  {
    if values == [] then []
    else InGroup(values[..|values| - 1], key, name)
         + (if key(values[|values| - 1]) == name then [values[|values| - 1]] else [])
  }

  /** The groups of the first values. */
  ghost predicate GroupsOf<T, K(!new)>(values: seq<T>, key: T -> K, groups: map<K, seq<T>>)
  {
    && (forall name :: name in groups <==> InGroup(values, key, name) != [])
    && (forall name :: name in groups ==> groups[name] == InGroup(values, key, name))
  }

  lemma InGroupSnoc<T, K>(values: seq<T>, value: T, key: T -> K, name: K)
    ensures InGroup(values + [value], key, name)
        == InGroup(values, key, name) + (if key(value) == name then [value] else [])
  {
    assert (values + [value])[..|values|] == values;
  }

  lemma GroupsSnoc<T, K(!new)>(values: seq<T>, value: T, key: T -> K, groups: map<K, seq<T>>)
    requires GroupsOf(values, key, groups)
    ensures var name := key(value);
            GroupsOf(values + [value], key, groups[name := (if name in groups then groups[name] else []) + [value]])
  {
    hide InGroup;
    var own := key(value);
    var groups' := groups[own := (if own in groups then groups[own] else []) + [value]];
    forall name
      ensures name in groups' <==> InGroup(values + [value], key, name) != []
      ensures name in groups' ==> groups'[name] == InGroup(values + [value], key, name)
    {
      InGroupSnoc(values, value, key, name);
      ConcatEmpty(InGroup(values, key, name));
    }
  }

  /** One worker per group name; each group holds its tasks in source order. */
  method GroupBy<T, K(==,!new)>(values: seq<T>, key: T -> K) returns (groups: map<K, seq<T>>)
    ensures GroupsOf(values, key, groups)
  {
    groups := map[];
    var i := 0;
    while i < |values|
      invariant 0 <= i <= |values|
      invariant GroupsOf(values[..i], key, groups)
    {
      GroupsSnoc(values[..i], values[i], key, groups);
      assert values[..i] + [values[i]] == values[..i + 1];
      var name := key(values[i]);
      groups := groups[name := (if name in groups then groups[name] else []) + [values[i]]];
      i := i + 1;
    }
    assert values[..|values|] == values;
  }

  /** Every task is in the group of its own name, and in no other. */
  lemma {:induction false} TaskInItsGroupOnly<T, K>(values: seq<T>, key: T -> K, name: K, i: nat)
    requires i < |values|
    ensures values[i] in InGroup(values, key, name) <==> key(values[i]) == name
  {
    var last := |values| - 1;
    if i < last {
      TaskInItsGroupOnly(values[..last], key, name, i);
      assert values[..last][i] == values[i];
    } else if key(values[i]) != name {
      GroupHasOwnKey(values, key, name);
    }
  }

  /** Grouping keeps the order: the group of two lists is the one's followed by the other's. */
  lemma {:induction false} InGroupJoins<T, K>(a: seq<T>, b: seq<T>, key: T -> K, name: K)
    ensures InGroup(a + b, key, name) == InGroup(a, key, name) + InGroup(b, key, name)
  {
    if b == [] {
      assert a + b == a;
    } else {
      hide InGroup;
      var most, last := b[..|b| - 1], b[|b| - 1];
      InGroupJoins(a, most, key, name);
      assert b == most + [last] && a + b == (a + most) + [last];
      InGroupSnoc(most, last, key, name);
      InGroupSnoc(a + most, last, key, name);
      ConcatAssoc(InGroup(a, key, name), InGroup(most, key, name), if key(last) == name then [last] else []);
    }
  }

  lemma {:induction false} GroupHasOwnKey<T, K>(values: seq<T>, key: T -> K, name: K)
    ensures forall v :: v in InGroup(values, key, name) ==> key(v) == name
  {
    if values != [] {
      GroupHasOwnKey(values[..|values| - 1], key, name);
    }
  }

  // ----- one run -----

  /** What a run is configured to do. `returnFailure` is the policy that ends a run when a
      worker's cycle fails. */
  datatype Config = Config(lockPath: bool, timeout: bool, services: nat, once: bool, groups: nat, returnFailure: bool)

  /** What a deferred call releases, in the order the defers are registered. */
  datatype Resource = DoneSignal | Guard | FileLock | Timeout | Service(i: nat) | Heartbeat

  datatype Result = Success | ErrAlreadyRunning | ErrSetup | ErrCanceled | ErrCycle(e: nat)

  /** A worker between its steps: `Failed` has an error to report, `Deposited` has reported it
      and is about to cancel the group. */
  datatype Worker = Cycling | Failed(e: nat) | Deposited | Waiting | Exited

  /** The workers of a run and their one-place failure channel. `failures`, `deposits` and
      `canceledByWorker` record the history. */
  datatype Group = Group(workers: seq<Worker>, slot: Option<nat>, failures: seq<nat>, deposits: seq<nat>,
                         canceledByWorker: bool)

  datatype Phase =
    | NotStarted
    | AtGuard | AtLock | AtVerify | AtTimeout | AtService(i: nat) | AtHeartbeat | AtMode
    | Spawning | AwaitCancel | AwaitWorkers
    | Unwinding | Finished

  datatype SetupStep =
    | Start                                  // Run is called
    | TryGuard
    | TakeLock(ok: bool)
    | Verify(ok: bool)
    | SetTimeout
    | StartService(ok: bool, hasStop: bool)
    | StartHeartbeat(licensed: bool)

  /** A setup step as it was met: whether the run was cancelled by then, and the guard free. */
  datatype Event = Event(step: SetupStep, canceled: bool, guardFree: bool)

  /** One runner. `held` is the stack of registered defers; `acquired` and `released` record
      its history; `doneCount` counts how often the done signal was given; `events` and `cycles`
      record the setup steps met and how the cycles ended. */
  datatype Run = Run(cfg: Config, phase: Phase, closed: bool, canceled: bool, heartbeat: bool,
                     held: seq<Resource>, acquired: seq<Resource>, released: seq<Resource>,
                     group: Group, result: Option<Result>, doneCount: nat,
                     events: seq<Event>, cycles: seq<Option<nat>>)

  /** The runners of one process and the guard they share: who holds it. */
  datatype Process = Process(runs: seq<Run>, guard: Option<nat>)

  function NewRun(cfg: Config): Run
  {
    Run(cfg, NotStarted, false, false, false, [], [], [], Group([], None, [], [], false), None, 0, [], [])
  }

  // ----- setting up -----

  predicate SetupEnabled(r: Run, s: SetupStep)
  {
    match s
    case Start => r.phase.NotStarted? && !r.closed
    case TryGuard => r.phase.AtGuard?
    case TakeLock(ok) => r.phase.AtLock?
    case Verify(ok) => r.phase.AtVerify?
    case SetTimeout => r.phase.AtTimeout?
    case StartService(ok, hasStop) => r.phase.AtService?
    case StartHeartbeat(licensed) => r.phase.AtHeartbeat?
  }

  /** What a setup step comes to: a defer more, just the next phase, or the way out. */
  datatype Move = Take(x: Resource, next: Phase) | Go(next: Phase) | Quit(why: Result)

  function SetupMove(cfg: Config, phase: Phase, canceled: bool, s: SetupStep, guardFree: bool): Move
    requires s.StartService? ==> phase.AtService?
  {
    match s
    case Start => Take(DoneSignal, AtGuard)
    case TryGuard => if guardFree then Take(Guard, AtLock) else Quit(ErrAlreadyRunning)
    case TakeLock(ok) => if !cfg.lockPath then Go(AtVerify) else if ok then Take(FileLock, AtVerify) else Quit(ErrSetup)
    case Verify(ok) => if ok then Go(AtTimeout) else Quit(ErrSetup)
    case SetTimeout => if cfg.timeout then Take(Timeout, AtService(0)) else Go(AtService(0))
    case StartService(ok, hasStop) =>
      if phase.i >= cfg.services then Go(AtHeartbeat)
      else if canceled then Quit(ErrCanceled)
      else if !ok then Quit(ErrSetup)
      else if hasStop then Take(Service(phase.i), AtService(phase.i + 1))
      else Go(AtService(phase.i + 1))
    case StartHeartbeat(licensed) => Take(Heartbeat, AtMode)
  }

  function Do(r: Run, m: Move): Run
  {
    match m
    case Take(x, next) => r.(held := r.held + [x], acquired := r.acquired + [x], phase := next)
    case Go(next) => r.(phase := next)
    case Quit(why) => r.(phase := Unwinding, result := Some(why))
  }

  // ----- the workers -----

  datatype WorkerStep = CycleEnds(failed: Option<nat>) | Deposit | CancelGroup | Tick | SeeCancel

  predicate WorkerEnabled(g: Group, w: nat, s: WorkerStep, canceled: bool)
  {
    w < |g.workers| &&
    match s
    case CycleEnds(failed) => g.workers[w].Cycling?
    case Deposit => g.workers[w].Failed?
    case CancelGroup => g.workers[w].Deposited?
    case Tick => g.workers[w].Waiting?
    case SeeCancel => g.workers[w].Waiting? && canceled
  }

  /** A failing cycle ends the worker only under the ReturnFailure policy: it deposits its error
      unless the slot is taken, and then cancels the group. */
  function WorkerNext(g: Group, w: nat, s: WorkerStep, returnFailure: bool): Group
    requires WorkerEnabled(g, w, s, true)
  {
    match s
    case CycleEnds(failed) =>
      if failed.Some? && returnFailure then
        g.(workers := g.workers[w := Failed(failed.value)], failures := g.failures + [failed.value])
      else g.(workers := g.workers[w := Waiting])
    case Deposit =>
      var e := g.workers[w].e;
      g.(workers := g.workers[w := Deposited], slot := if g.slot.None? then Some(e) else g.slot,
         deposits := g.deposits + [e])
    case CancelGroup => g.(workers := g.workers[w := Exited], canceledByWorker := true)
    case Tick => g.(workers := g.workers[w := Cycling])
    case SeeCancel => g.(workers := g.workers[w := Exited])
  }

  // ----- collecting, and the way out -----

  datatype MainStep = OnceCycle(failed: Option<nat>) | Spawn | SeeCanceled | JoinWorkers

  predicate AllExited(g: Group) { forall w :: 0 <= w < |g.workers| ==> g.workers[w].Exited? }

  predicate MainEnabled(r: Run, s: MainStep)
  {
    match s
    case OnceCycle(failed) => r.phase.AtMode? && r.cfg.once
    case Spawn => (r.phase.AtMode? && !r.cfg.once) || r.phase.Spawning?
    case SeeCanceled => r.phase.AwaitCancel? && r.canceled
    case JoinWorkers => r.phase.AwaitWorkers? && AllExited(r.group)
  }

  function MainNext(r: Run, s: MainStep): Run
  {
    match s
    case OnceCycle(failed) => Do(r, Quit(if failed.Some? then ErrCycle(failed.value) else Success))
    case Spawn =>
      if |r.group.workers| < r.cfg.groups
          then r.(group := r.group.(workers := r.group.workers + [Cycling]), phase := Spawning)
      else if r.cfg.groups == 0 then Do(r, Quit(Success))
      else r.(phase := AwaitCancel)
    case SeeCanceled => r.(phase := AwaitWorkers)
    case JoinWorkers => Do(r, Quit(if r.group.slot.Some? then ErrCycle(r.group.slot.value) else Success))
  }

  predicate Busy(phase: Phase) { !phase.NotStarted? && !phase.Finished? }

  function Top(r: Run): Resource
    requires r.held != []
  {
    r.held[|r.held| - 1]
  }

  /** These deferred calls cancel the context before they wait for anything. */
  predicate CancelsFirst(x: Resource) { x.Heartbeat? || x.Service? || x.DoneSignal? }

  predicate ReleaseEnabled(r: Run)
  {
    && r.phase.Unwinding? && r.held != []
    && (CancelsFirst(Top(r)) ==> r.canceled)
    && (Top(r).Heartbeat? ==> !r.heartbeat)
  }

  function ReleaseTop(r: Run): Run
    requires r.held != []
  {
    var r1 := r.(held := r.held[..|r.held| - 1], released := r.released + [Top(r)]);
    if Top(r).DoneSignal? then r1.(closed := true, doneCount := r.doneCount + 1, phase := Finished) else r1
  }

  datatype RunStep =
    | Setup(setup: SetupStep)
    | Work(w: nat, step: WorkerStep)
    | Main(main: MainStep)
    | HeartbeatExits
    | CancelDeferred
    | Release
    | Cancel                                 // the parent context ends, or the timeout expires
    | Close                                  // Close is called: its first half

  predicate RunEnabled(r: Run, s: RunStep)
  {
    match s
    case Setup(s) => SetupEnabled(r, s)
    case Work(w, s) => WorkerEnabled(r.group, w, s, r.canceled)
    case Main(s) => MainEnabled(r, s)
    case HeartbeatExits => r.heartbeat && r.canceled
    case CancelDeferred => r.phase.Unwinding? && r.held != [] && CancelsFirst(Top(r))
    case Release => ReleaseEnabled(r)
    case Cancel => Busy(r.phase)
    case Close => true
  }

  /** The effect of a step; `guardFree` says whether TryLock succeeds. */
  function RunNext(r: Run, s: RunStep, guardFree: bool): Run
    requires RunEnabled(r, s)
  {
    match s
    case Setup(s) =>
      Do(r, SetupMove(r.cfg, r.phase, r.canceled, s, guardFree))
      .(heartbeat := if s.StartHeartbeat? then s.licensed else r.heartbeat,
        events := r.events + [Event(s, r.canceled, guardFree)])
    case Work(w, s) =>
      r.(group := WorkerNext(r.group, w, s, r.cfg.returnFailure), canceled := r.canceled || s.CancelGroup?,
         cycles := if s.CycleEnds? then r.cycles + [s.failed] else r.cycles)
    case Main(s) => MainNext(r, s).(cycles := if s.OnceCycle? then r.cycles + [s.failed] else r.cycles)
    case HeartbeatExits => r.(heartbeat := false)
    case CancelDeferred => r.(canceled := true)
    case Release => ReleaseTop(r)
    case Cancel => r.(canceled := true)
    case Close => r.(closed := true, canceled := r.canceled || Busy(r.phase))
  }

  datatype Step = Step(i: nat, s: RunStep)

  predicate Enabled(p: Process, t: Step)
  {
    t.i < |p.runs| && RunEnabled(p.runs[t.i], t.s)
  }

  predicate TriesGuard(s: RunStep) { s.Setup? && s.setup.TryGuard? }

  predicate ReleasesGuard(r: Run, s: RunStep) { s.Release? && r.held != [] && Top(r).Guard? }

  function Next(p: Process, t: Step): (p': Process)
    requires Enabled(p, t)
    ensures |p'.runs| == |p.runs|
  {
    var r := p.runs[t.i];
    Process(p.runs[t.i := RunNext(r, t.s, p.guard.None?)],
            if TriesGuard(t.s) && p.guard.None? then Some(t.i)
            else if ReleasesGuard(r, t.s) then None
            else p.guard)
  }

  // ----- what holds at every moment: the workers -----

  function CountFailed(ws: seq<Worker>): nat
  {
    if ws == [] then 0 else CountFailed(ws[..|ws| - 1]) + (if ws[|ws| - 1].Failed? then 1 else 0)
  }

  /** Errors are on their way: every failure is deposited or about to be, the slot holds the
      first deposit, and a worker cancels the group only after it has deposited. */
  predicate GroupOk(g: Group, returnFailure: bool)
  {
    && |g.failures| == |g.deposits| + CountFailed(g.workers)
    && g.slot == (if g.deposits == [] then None else Some(g.deposits[0]))
    && (forall e :: e in g.deposits ==> e in g.failures)
    && (forall w :: 0 <= w < |g.workers| && g.workers[w].Failed? ==> g.workers[w].e in g.failures)
    && (forall w :: 0 <= w < |g.workers| && g.workers[w].Deposited? ==> g.deposits != [])
    && (g.canceledByWorker ==> g.deposits != [])
    && (!returnFailure ==> g.failures == [])
  }

  lemma {:induction false} CountFailedUpdate(ws: seq<Worker>, w: nat, x: Worker)
    requires w < |ws|
    ensures CountFailed(ws[w := x]) == CountFailed(ws) - (if ws[w].Failed? then 1 else 0) + (if x.Failed? then 1 else 0)
  {
    var last := |ws| - 1;
    if w < last {
      CountFailedUpdate(ws[..last], w, x);
      assert ws[w := x][..last] == ws[..last][w := x];
    } else {
      assert ws[w := x][..last] == ws[..last];
    }
  }

  lemma {:induction false} NoneFailed(ws: seq<Worker>)
    requires forall w :: 0 <= w < |ws| ==> !ws[w].Failed?
    ensures CountFailed(ws) == 0
  {
    if ws != [] {
      NoneFailed(ws[..|ws| - 1]);
    }
  }

  lemma WorkerKeepsGroup(g: Group, w: nat, s: WorkerStep, returnFailure: bool)
    requires WorkerEnabled(g, w, s, true) && GroupOk(g, returnFailure)
    ensures GroupOk(WorkerNext(g, w, s, returnFailure), returnFailure)
  {
    CountFailedUpdate(g.workers, w, WorkerNext(g, w, s, returnFailure).workers[w]);
    hide CountFailed;
  }

  lemma SpawnKeepsGroup(g: Group, returnFailure: bool)
    requires GroupOk(g, returnFailure)
    ensures GroupOk(g.(workers := g.workers + [Cycling]), returnFailure)
  {
    assert (g.workers + [Cycling])[..|g.workers|] == g.workers;
  }

  // ----- the stack of defers -----

  function Rank(x: Resource): nat
  {
    match x
    case DoneSignal => 0
    case Guard => 1
    case FileLock => 2
    case Timeout => 3
    case Service(i) => 4
    case Heartbeat => 5
  }

  predicate Precedes(x: Resource, y: Resource)
  {
    Rank(x) < Rank(y) || (x.Service? && y.Service? && x.i < y.i)
  }

  /** How far the run has come bounds what it can hold. */
  predicate Reached(phase: Phase, x: Resource)
  {
    match phase
    case NotStarted => false
    case AtGuard => Rank(x) < 1
    case AtLock => Rank(x) < 2
    case AtVerify => Rank(x) < 3
    case AtTimeout => Rank(x) < 3
    case AtService(i) => Rank(x) < 4 || (x.Service? && x.i < i)
    case AtHeartbeat => Rank(x) < 5
    case Finished => false
    case _ => true
  }

  predicate Leaving(phase: Phase) { phase.Unwinding? || phase.Finished? }

  /** Past TryLock and not on the way out: collecting and reporting happen only here. */
  predicate PastGuard(phase: Phase) { !phase.NotStarted? && !phase.AtGuard? && !Leaving(phase) }

  /** Each resource at most once, in the fixed order. */
  predicate Ordered(xs: seq<Resource>)
  {
    forall i, j :: 0 <= i < j < |xs| ==> Precedes(xs[i], xs[j])
  }

  /** The defers are registered in the fixed order, and the first one is always there. */
  predicate HeldOk(phase: Phase, held: seq<Resource>)
  {
    && Ordered(held)
    && (forall x :: x in held ==> Reached(phase, x))
    && (Busy(phase) <==> held != [])
    && (held != [] ==> held[0] == DoneSignal)
    && (PastGuard(phase) ==> Guard in held)
  }

  lemma TakeKeepsHeld(phase: Phase, held: seq<Resource>, x: Resource, next: Phase)
    requires HeldOk(phase, held) && (forall y :: Reached(phase, y) ==> Precedes(y, x) && Reached(next, y))
        && Reached(next, x)
    requires Busy(next) && (held == [] ==> x == DoneSignal)
    requires PastGuard(next) ==> x == Guard || PastGuard(phase)
    ensures HeldOk(next, held + [x])
  {
    var held' := held + [x];
    assert held'[|held|] == x;
    forall i, j | 0 <= i < j < |held'|
      ensures Precedes(held'[i], held'[j])
    {
      if j == |held| {
        assert held[i] in held;
      }
    }
    if Guard in held {
      assert Guard in held';
    }
  }

  lemma SetupKeepsHeld(r: Run, s: SetupStep, guardFree: bool)
    requires SetupEnabled(r, s) && HeldOk(r.phase, r.held)
    ensures var r' := Do(r, SetupMove(r.cfg, r.phase, r.canceled, s, guardFree)); HeldOk(r'.phase, r'.held)
  {
    var m := SetupMove(r.cfg, r.phase, r.canceled, s, guardFree);
    if m.Take? {
      TakeKeepsHeld(r.phase, r.held, m.x, m.next);
      hide HeldOk;
    }
  }

  lemma ReleaseKeepsHeld(r: Run)
    requires ReleaseEnabled(r) && HeldOk(r.phase, r.held)
    ensures HeldOk(ReleaseTop(r).phase, ReleaseTop(r).held)
  {
    var held' := ReleaseTop(r).held;
    assert forall i :: 0 <= i < |held'| ==> held'[i] == r.held[i];
    if |r.held| > 1 {
      assert Precedes(r.held[0], r.held[|r.held| - 1]);
    }
  }

  lemma MainKeepsHeld(r: Run, s: MainStep)
    requires MainEnabled(r, s) && HeldOk(r.phase, r.held)
    ensures HeldOk(MainNext(r, s).phase, MainNext(r, s).held)
  {
    hide Ordered, Precedes, Rank, AllExited;
  }

  lemma StepKeepsHeld(r: Run, s: RunStep, guardFree: bool)
    requires RunEnabled(r, s) && HeldOk(r.phase, r.held)
    ensures HeldOk(RunNext(r, s, guardFree).phase, RunNext(r, s, guardFree).held)
  {
    hide HeldOk, SetupMove, MainNext, WorkerNext, ReleaseTop;
    match s
    case Setup(s) => SetupKeepsHeld(r, s, guardFree);
    case Main(s) => MainKeepsHeld(r, s);
    case Release => ReleaseKeepsHeld(r);
    case _ =>
  }

  // ----- the course of a run -----

  function Reverse<T>(s: seq<T>): seq<T>
  {
    if s == [] then [] else [s[|s| - 1]] + Reverse(s[..|s| - 1])
  }

  lemma ReverseSnoc<T>(s: seq<T>, x: T)
    ensures Reverse(s + [x]) == [x] + Reverse(s)
  {
    assert (s + [x])[..|s|] == s;
  }

  lemma {:induction false} ReverseAt<T>(s: seq<T>, i: nat)
    requires i < |s|
    ensures |Reverse(s)| == |s| && Reverse(s)[i] == s[|s| - 1 - i]
  {
    var most := s[..|s| - 1];
    if most != [] {
      ReverseAt(most, if i > 0 then i - 1 else 0);
    }
  }

  predicate HasWorkers(phase: Phase)
  {
    phase.Spawning? || phase.AwaitCancel? || phase.AwaitWorkers? || Leaving(phase)
  }

  /** What is not held any more has been released, last acquired first. */
  predicate HistoryOk(r: Run)
  {
    && r.acquired == r.held + Reverse(r.released)
    && Ordered(r.acquired)
    && (!Leaving(r.phase) ==> r.released == [])
  }

  predicate SignalsOk(r: Run)
  {
    && r.doneCount == (if r.phase.Finished? then 1 else 0)
    && (r.phase.Finished? ==> r.closed)
    && (r.heartbeat ==> Heartbeat in r.held)
  }

  predicate WorkersOk(r: Run)
  {
    && |r.group.workers| <= r.cfg.groups
    && (r.group.workers != [] ==> HasWorkers(r.phase))
    && (Leaving(r.phase) ==> r.result.Some? && AllExited(r.group))
    && (!Leaving(r.phase) ==> r.result.None?)
  }

  /** What a run with workers returns. */
  predicate ResultOk(phase: Phase, g: Group, result: Option<Result>)
  {
    Leaving(phase) && g.workers != [] ==>
      && |g.failures| == |g.deposits|
      && result == Some(if g.deposits == [] then Success else ErrCycle(g.deposits[0]))
  }

  predicate RunInv(r: Run)
  {
    && GroupOk(r.group, r.cfg.returnFailure)
    && HeldOk(r.phase, r.held)
    && HistoryOk(r)
    && SignalsOk(r)
    && WorkersOk(r)
    && ResultOk(r.phase, r.group, r.result)
  }

  lemma StepKeepsGroup(r: Run, s: RunStep, guardFree: bool)
    requires RunEnabled(r, s) && GroupOk(r.group, r.cfg.returnFailure)
    ensures GroupOk(RunNext(r, s, guardFree).group, r.cfg.returnFailure)
  {
    hide GroupOk, SetupMove, WorkerNext;
    match s
    case Work(w, s) => WorkerKeepsGroup(r.group, w, s, r.cfg.returnFailure);
    case Main(_) => SpawnKeepsGroup(r.group, r.cfg.returnFailure);
    case _ =>
  }

  lemma DoKeepsHistory(r: Run, m: Move)
    requires HistoryOk(r) && !Leaving(r.phase) && Ordered(Do(r, m).held)
    requires !m.Quit? ==> !Leaving(m.next)
    ensures HistoryOk(Do(r, m))
  {
    hide Ordered;
    ConcatEmpty(r.held);
    ConcatEmpty(Do(r, m).held);
  }

  lemma SetupKeepsHistory(r: Run, s: RunStep, guardFree: bool)
    requires s.Setup? && RunEnabled(r, s) && HeldOk(r.phase, r.held) && HistoryOk(r)
    ensures HistoryOk(RunNext(r, s, guardFree))
  {
    var m := SetupMove(r.cfg, r.phase, r.canceled, s.setup, guardFree);
    assert !Leaving(r.phase) && (!m.Quit? ==> !Leaving(m.next));
    hide SetupMove, SetupEnabled;
    SetupKeepsHeld(r, s.setup, guardFree);
    hide Ordered, Reached;
    DoKeepsHistory(r, m);
    hide Reverse;
  }

  lemma ReleaseKeepsHistory(r: Run)
    requires ReleaseEnabled(r) && HistoryOk(r)
    ensures HistoryOk(ReleaseTop(r))
  {
    hide Ordered;
    var held' := ReleaseTop(r).held;
    var x := Top(r);
    ReverseSnoc(r.released, x);
    hide Reverse;
    assert r.held == held' + [x];
    ConcatAssoc(held', [x], Reverse(r.released));
  }

  lemma StepKeepsHistory(r: Run, s: RunStep, guardFree: bool)
    requires RunEnabled(r, s) && HeldOk(r.phase, r.held) && HistoryOk(r)
    ensures HistoryOk(RunNext(r, s, guardFree))
  {
    hide HeldOk, Ordered, Reverse, SetupMove, WorkerNext, ReleaseTop;
    match s
    case Setup(_) => SetupKeepsHistory(r, s, guardFree);
    case Release => ReleaseKeepsHistory(r);
    case _ =>
  }

  lemma SetupKeepsSignals(r: Run, s: SetupStep, guardFree: bool)
    requires SetupEnabled(r, s) && HeldOk(r.phase, r.held) && SignalsOk(r)
    ensures SignalsOk(RunNext(r, Setup(s), guardFree))
  {
    assert !Reached(r.phase, Heartbeat) && Heartbeat !in r.held;
    assert s.StartHeartbeat? ==> RunNext(r, Setup(s), guardFree).held[|r.held|] == Heartbeat;
    hide HeldOk;
  }

  lemma ReleaseKeepsSignals(r: Run)
    requires ReleaseEnabled(r) && SignalsOk(r)
    ensures SignalsOk(ReleaseTop(r))
  {
    if r.heartbeat {
      var i :| 0 <= i < |r.held| && r.held[i] == Heartbeat;
      assert ReleaseTop(r).held[i] == Heartbeat;
    }
  }

  lemma StepKeepsSignals(r: Run, s: RunStep, guardFree: bool)
    requires RunEnabled(r, s) && HeldOk(r.phase, r.held) && SignalsOk(r)
    ensures SignalsOk(RunNext(r, s, guardFree))
  {
    hide HeldOk, SetupMove, WorkerNext, ReleaseTop;
    match s
    case Setup(s) => SetupKeepsSignals(r, s, guardFree);
    case Release => ReleaseKeepsSignals(r);
    case _ =>
  }

  lemma SetupKeepsWorkers(r: Run, s: SetupStep, guardFree: bool)
    requires SetupEnabled(r, s) && WorkersOk(r)
    ensures WorkersOk(RunNext(r, Setup(s), guardFree))
  {
    assert !Leaving(r.phase) && !HasWorkers(r.phase);
    var m := SetupMove(r.cfg, r.phase, r.canceled, s, guardFree);
    assert !m.Quit? ==> !Leaving(m.next);
    hide SetupMove, SetupEnabled;
  }

  lemma WorkKeepsWorkers(r: Run, w: nat, s: WorkerStep, guardFree: bool)
    requires WorkerEnabled(r.group, w, s, r.canceled) && WorkersOk(r)
    ensures WorkersOk(RunNext(r, Work(w, s), guardFree))
  {
    assert !Leaving(r.phase);
    assert |WorkerNext(r.group, w, s, r.cfg.returnFailure).workers| == |r.group.workers|;
    hide WorkerNext, WorkerEnabled;
  }

  lemma MainKeepsWorkers(r: Run, s: MainStep, guardFree: bool)
    requires MainEnabled(r, s) && WorkersOk(r)
    ensures WorkersOk(RunNext(r, Main(s), guardFree))
  {
    hide SetupMove, WorkerNext;
  }

  lemma StepKeepsWorkers(r: Run, s: RunStep, guardFree: bool)
    requires RunEnabled(r, s) && WorkersOk(r)
    ensures WorkersOk(RunNext(r, s, guardFree))
  {
    match s
    case Setup(s) => SetupKeepsWorkers(r, s, guardFree);
    case Work(w, s) => WorkKeepsWorkers(r, w, s, guardFree);
    case Main(s) => MainKeepsWorkers(r, s, guardFree);
    case _ => hide SetupMove, WorkerNext, MainNext;
  }

  lemma JoinIsExact(r: Run)
    requires MainEnabled(r, JoinWorkers) && GroupOk(r.group, r.cfg.returnFailure)
    ensures ResultOk(Unwinding, r.group, MainNext(r, JoinWorkers).result)
  {
    NoneFailed(r.group.workers);
    hide CountFailed;
  }

  lemma StepKeepsResult(r: Run, s: RunStep, guardFree: bool)
    requires RunEnabled(r, s) && GroupOk(r.group, r.cfg.returnFailure) && WorkersOk(r)
        && ResultOk(r.phase, r.group, r.result)
    ensures var r' := RunNext(r, s, guardFree); ResultOk(r'.phase, r'.group, r'.result)
  {
    hide GroupOk, SetupMove;
    if s.Main? && s.main.JoinWorkers? {
      JoinIsExact(r);
    }
  }

  lemma StepKeepsRunInv(r: Run, s: RunStep, guardFree: bool)
    requires RunEnabled(r, s) && RunInv(r)
    ensures RunInv(RunNext(r, s, guardFree))
  {
    hide RunEnabled, RunNext, GroupOk, HeldOk, HistoryOk, SignalsOk, WorkersOk, ResultOk;
    StepKeepsGroup(r, s, guardFree);
    StepKeepsHeld(r, s, guardFree);
    StepKeepsHistory(r, s, guardFree);
    StepKeepsSignals(r, s, guardFree);
    StepKeepsWorkers(r, s, guardFree);
    StepKeepsResult(r, s, guardFree);
    CfgStays(r, s, guardFree);
  }

  lemma CfgStays(r: Run, s: RunStep, guardFree: bool)
    requires RunEnabled(r, s)
    ensures RunNext(r, s, guardFree).cfg == r.cfg
  {
    hide SetupMove, WorkerNext;
  }

  // ----- the process -----

  predicate GuardOk(p: Process)
  {
    forall i :: 0 <= i < |p.runs| ==> (Guard in p.runs[i].held <==> p.guard == Some(i))
  }

  predicate Inv(p: Process)
  {
    (forall i :: 0 <= i < |p.runs| ==> RunInv(p.runs[i])) && GuardOk(p)
  }

  lemma SetupMovesGuard(r: Run, s: SetupStep, guardFree: bool)
    requires SetupEnabled(r, s) && HeldOk(r.phase, r.held)
    ensures Guard in Do(r, SetupMove(r.cfg, r.phase, r.canceled, s, guardFree)).held
        <==> if s.TryGuard? then guardFree else Guard in r.held
    ensures s.TryGuard? ==> Guard !in r.held
  {
    assert s.TryGuard? ==> !Reached(r.phase, Guard);
    var m := SetupMove(r.cfg, r.phase, r.canceled, s, guardFree);
    assert m.Take? ==> (m.x == Guard <==> s.TryGuard?);
    hide SetupMove, Precedes;
    if m.Take? {
      assert forall x :: x in r.held + [m.x] <==> x in r.held || x == m.x;
    }
  }

  lemma ReleaseMovesGuard(r: Run)
    requires ReleaseEnabled(r) && HeldOk(r.phase, r.held)
    ensures Guard in ReleaseTop(r).held <==> !Top(r).Guard? && Guard in r.held
    ensures Top(r).Guard? ==> Guard in r.held
  {
    var held' := ReleaseTop(r).held;
    assert r.held == held' + [Top(r)];
    assert forall i :: 0 <= i < |held'| ==> held'[i] == r.held[i] && Precedes(held'[i], Top(r));
  }

  /** Only TryGuard takes the guard, and only its release gives it back. */
  lemma GuardMoves(r: Run, s: RunStep, guardFree: bool)
    requires RunEnabled(r, s) && HeldOk(r.phase, r.held)
    ensures Guard in RunNext(r, s, guardFree).held
        <==> if TriesGuard(s) then guardFree else if ReleasesGuard(r, s) then false else Guard in r.held
    ensures TriesGuard(s) ==> Guard !in r.held
    ensures ReleasesGuard(r, s) ==> Guard in r.held
  {
    hide HeldOk, SetupMove, WorkerNext;
    match s
    case Setup(s) => SetupMovesGuard(r, s, guardFree);
    case Release => ReleaseMovesGuard(r);
    case _ =>
  }

  /** The guard's holder changes only together with the stack of the runner that moves. */
  lemma GuardStaysOk(p: Process, i: nat, r': Run, guard': Option<nat>)
    requires GuardOk(p) && i < |p.runs|
    requires guard' == p.guard || guard' == Some(i) || (guard' == None && Guard in p.runs[i].held)
    requires guard' == Some(i) ==> p.guard == None || p.guard == Some(i)
    requires Guard in r'.held <==> guard' == Some(i)
    ensures GuardOk(Process(p.runs[i := r'], guard'))
  {
    assert Guard in p.runs[i].held <==> p.guard == Some(i);
  }

  lemma StepKeepsGuardOk(p: Process, t: Step)
    requires Enabled(p, t) && GuardOk(p) && HeldOk(p.runs[t.i].phase, p.runs[t.i].held)
    ensures GuardOk(Next(p, t))
  {
    var r := p.runs[t.i];
    assert Guard in r.held <==> p.guard == Some(t.i);
    GuardMoves(r, t.s, p.guard.None?);
    hide GuardOk, HeldOk, RunNext, RunEnabled, TriesGuard, ReleasesGuard;
    var p' := Next(p, t);
    GuardStaysOk(p, t.i, RunNext(r, t.s, p.guard.None?), p'.guard);
  }

  lemma StepKeepsInv(p: Process, t: Step)
    requires Enabled(p, t) && Inv(p)
    ensures Inv(Next(p, t))
  {
    var r := p.runs[t.i];
    assert RunInv(r);
    StepKeepsGuardOk(p, t);
    hide RunInv, RunNext, RunEnabled, GuardOk;
    StepKeepsRunInv(r, t.s, p.guard.None?);
  }

  predicate RunOk(p: Process, steps: seq<Step>)
    decreases |steps|
  {
    steps == [] || (Enabled(p, steps[0]) && RunOk(Next(p, steps[0]), steps[1..]))
  }

  function Execute(p: Process, steps: seq<Step>): (p': Process)
    requires RunOk(p, steps)
    ensures |p'.runs| == |p.runs|
    decreases |steps|
  {
    if steps == [] then p else Execute(Next(p, steps[0]), steps[1..])
  }

  lemma {:induction false} RunKeepsInv(p: Process, steps: seq<Step>)
    requires Inv(p) && RunOk(p, steps)
    ensures Inv(Execute(p, steps))
    decreases |steps|
  {
    if steps != [] {
      StepKeepsInv(p, steps[0]);
      RunKeepsInv(Next(p, steps[0]), steps[1..]);
    }
  }

  /** A process in which no runner has been started. */
  function NewProcess(cfgs: seq<Config>): (p: Process)
    ensures |p.runs| == |cfgs|
  {
    Process(seq(|cfgs|, i requires 0 <= i < |cfgs| => NewRun(cfgs[i])), None)
  }

  lemma NewRunIsOk(cfg: Config)
    ensures RunInv(NewRun(cfg)) && NewRun(cfg).held == []
  {
  }

  lemma NewProcessIsOk(cfgs: seq<Config>)
    ensures Inv(NewProcess(cfgs))
  {
    hide RunInv, NewRun;
    forall i | 0 <= i < |cfgs|
      ensures RunInv(NewRun(cfgs[i])) && NewRun(cfgs[i]).held == []
    {
      NewRunIsOk(cfgs[i]);
    }
  }

  /** The state of runner `i` after some run of the process. */
  function RunnerAfter(cfgs: seq<Config>, steps: seq<Step>, i: nat): Run
    requires RunOk(NewProcess(cfgs), steps) && i < |cfgs|
  {
    Execute(NewProcess(cfgs), steps).runs[i]
  }

  lemma ReachedIsOk(cfgs: seq<Config>, steps: seq<Step>, i: nat)
    requires RunOk(NewProcess(cfgs), steps) && i < |cfgs|
    ensures RunInv(RunnerAfter(cfgs, steps, i))
  {
    NewProcessIsOk(cfgs);
    RunKeepsInv(NewProcess(cfgs), steps);
    hide RunInv, GuardOk;
  }

  // ----- the main results, for every reachable state -----

  /** A worker's failure is never lost and never overtaken: once a worker has cancelled the
      group, the failure slot holds the first error deposited by any worker. When a run with
      workers is on its way out, every worker has exited; it returns success exactly if no
      cycle failed under the ReturnFailure policy, and else the first deposited error, which
      is one that a cycle returned. */
  lemma FirstFailureIsReturned(cfgs: seq<Config>, steps: seq<Step>, i: nat)
    requires RunOk(NewProcess(cfgs), steps) && i < |cfgs|
    ensures var r := RunnerAfter(cfgs, steps, i);
            var g := r.group;
            && (g.canceledByWorker ==> g.deposits != [] && g.slot == Some(g.deposits[0]))
            && (Leaving(r.phase) && g.workers != [] ==>
                  && AllExited(g)
                  && (r.result == Some(Success) <==> g.failures == [])
                  && (g.failures != [] ==>
                        g.deposits != [] && r.result == Some(ErrCycle(g.deposits[0])) && g.deposits[0] in g.failures))
  {
    ReachedIsOk(cfgs, steps, i);
    hide RunnerAfter, RunOk, HeldOk, CountFailed, Reverse;
    var g := RunnerAfter(cfgs, steps, i).group;
    if g.deposits != [] {
      assert g.deposits[0] in g.deposits;
    }
  }

  /** On every way out of Run, whatever failed and whoever cancelled: what was acquired is
      released in exactly the reverse order, nothing twice, after all workers have exited;
      the done signal is given at most once, and last. */
  lemma ReleasedInReverse(cfgs: seq<Config>, steps: seq<Step>, i: nat)
    requires RunOk(NewProcess(cfgs), steps) && i < |cfgs|
    ensures var r := RunnerAfter(cfgs, steps, i);
            && r.doneCount <= 1
            && (r.released != [] ==> AllExited(r.group))
            && (r.phase.Finished? <==> r.doneCount == 1)
            && (r.phase.Finished? ==> r.held == [] && !r.heartbeat && r.closed && r.acquired == Reverse(r.released))
            && (forall a, b :: 0 <= a < b < |r.acquired| ==> Precedes(r.acquired[a], r.acquired[b]))
  {
    ReachedIsOk(cfgs, steps, i);
    hide RunnerAfter, RunOk, GroupOk, Reached, Precedes;
    var r := RunnerAfter(cfgs, steps, i);
    ConcatEmpty(Reverse(r.released));
    hide Reverse;
  }

  /** Two runners never collect at the same time: at most one is past the process guard. */
  lemma RunnersDoNotOverlap(cfgs: seq<Config>, steps: seq<Step>, i: nat, j: nat)
    requires RunOk(NewProcess(cfgs), steps) && i < |cfgs| && j < |cfgs|
    requires PastGuard(RunnerAfter(cfgs, steps, i).phase) && PastGuard(RunnerAfter(cfgs, steps, j).phase)
    ensures i == j
  {
    NewProcessIsOk(cfgs);
    RunKeepsInv(NewProcess(cfgs), steps);
    hide RunOk, Execute, NewProcess, GroupOk, HistoryOk, SignalsOk, WorkersOk, ResultOk, Reached, Ordered;
    var p := Execute(NewProcess(cfgs), steps);
    assert RunInv(p.runs[i]) && RunInv(p.runs[j]);
  }

  /** What Close waits for once it has cancelled the run: nothing if the runner was never
      started, else the done signal. */
  predicate CloseReturnsNil(r: Run) { r.closed && (r.phase.NotStarted? || r.doneCount > 0) }

  /** When Close returns nil, the runner holds nothing and none of its workers is left. */
  lemma ClosedMeansReleased(cfgs: seq<Config>, steps: seq<Step>, i: nat)
    requires RunOk(NewProcess(cfgs), steps) && i < |cfgs|
    requires CloseReturnsNil(RunnerAfter(cfgs, steps, i))
    ensures var r := RunnerAfter(cfgs, steps, i);
            && r.held == [] && !r.heartbeat && AllExited(r.group) && (r.phase.NotStarted? || r.phase.Finished?)
  {
    ReachedIsOk(cfgs, steps, i);
    hide RunnerAfter, RunOk, GroupOk, Reached, Ordered, Reverse;
  }

  /** And it stays so: no step of a closed runner starts anything again. */
  lemma ClosedStaysClosed(r: Run, s: RunStep, guardFree: bool)
    requires RunInv(r) && CloseReturnsNil(r) && RunEnabled(r, s)
    ensures CloseReturnsNil(RunNext(r, s, guardFree)) && RunNext(r, s, guardFree).held == []
  {
    hide GroupOk, Reverse, Ordered;
  }
}
