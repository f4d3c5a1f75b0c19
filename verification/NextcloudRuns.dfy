/** Whole runs of the tailer: writers and logrotate act on both logs, rounds succeed or fail
    at any step, and in the end every line has been returned exactly once. */
module NextcloudRuns {
  import opened Basics
  import opened Lines
  import opened NextcloudModel
  import opened NextcloudState
  import opened NextcloudSource
  import opened NextcloudLedger

  /** The collector's files, both logs, and the history: the events returned by successful
      rounds, the lines given up per source, and what was renamed out of the local copy. */
  datatype World = World(dir: Dir, app: Log, audit: Log,
                         returned: seq<NCEvent>, lostApp: seq<Bytes>, lostAudit: seq<Bytes>, archive: Bytes)

  datatype Step = OnApp(e: EnvStep) | OnAudit(e: EnvStep) | Round(snap: Snapshot, faults: Faults)

  function AppCursor(w: World): Option<Cursor> { LoadState(w.dir.stateFile).app }

  function AuditCursor(w: World): Option<Cursor> { LoadState(w.dir.stateFile).audit }

  /** Both log paths are set; nothing else is asked of the configuration. */
  predicate ConfigOk(cfg: Config) { cfg.nextcloudLog != "" && cfg.ncAuditLog != "" }

  /** Lines of a half-drained `.1` that a further rotation gives up. */
  function GivenUp(path: string, c: Option<Cursor>, log: Log, e: EnvStep): seq<Bytes>
  {
    if e.Append? || FirstRun(c, path) || c.value.prev.None? || log.done == [] then [] else PrevLines(log, c.value)
  }

  predicate EnvStepOk(path: string, c: Option<Cursor>, log: Log, e: EnvStep)
  {
    e.Append? || (log.present && (FirstRun(c, path) || !log.rotated))
  }

  /** A round that sees a rotation has to notice it. */
  predicate Noticed(path: string, c: Option<Cursor>, log: Log)
  {
    !FirstRun(c, path) && log.rotated ==> Detected(log, c.value)
  }

  /** The conditions on a run: at most one rotation between successful rounds, each round
      sees the files as they are, and a successful round notices the rotations it meets. */
  predicate StepOk(k: Codec, cfg: Config, w: World, s: Step)
  {
    match s
    case OnApp(e) => EnvStepOk(cfg.nextcloudLog, AppCursor(w), w.app, e)
    case OnAudit(e) => EnvStepOk(cfg.ncAuditLog, AuditCursor(w), w.audit, e)
    case Round(snap, f) =>
      && Shows(snap, cfg.nextcloudLog, w.app) && Shows(snap, cfg.ncAuditLog, w.audit)
      && (Collect(k, cfg, snap, w.dir, f).1.Collected? ==>
            Noticed(cfg.nextcloudLog, AppCursor(w), w.app) && Noticed(cfg.ncAuditLog, AuditCursor(w), w.audit))
  }

  /** A successful round has seen the log: it opens the books on first contact. */
  function LogSeen(path: string, c: Option<Cursor>, log: Log): Log
  {
    if FirstRun(c, path) then log.(done := [], first := LastLineEnd(log.cur), rotated := false)
    else log.(rotated := false)
  }

  function Next(k: Codec, cfg: Config, w: World, s: Step): World
  {
    match s
    case OnApp(e) =>
      w.(app := EnvNext(w.app, e), lostApp := w.lostApp + GivenUp(cfg.nextcloudLog, AppCursor(w), w.app, e))
    case OnAudit(e) =>
      w.(audit := EnvNext(w.audit, e), lostAudit := w.lostAudit + GivenUp(cfg.ncAuditLog, AuditCursor(w), w.audit, e))
    case Round(snap, f) =>
      var (d, o) := Collect(k, cfg, snap, w.dir, f);
      var w1 := w.(dir := d, returned := w.returned + Returned(o),
                   archive := w.archive + RenamedOut(k, cfg, snap, w.dir, f));
      if o.Collected? then
        w1.(app := LogSeen(cfg.nextcloudLog, AppCursor(w), w.app),
            audit := LogSeen(cfg.ncAuditLog, AuditCursor(w), w.audit))
      else w1
  }

  predicate RunOk(k: Codec, cfg: Config, w: World, steps: seq<Step>)
    decreases |steps|
  {
    steps == [] || (StepOk(k, cfg, w, steps[0]) && RunOk(k, cfg, Next(k, cfg, w, steps[0]), steps[1..]))
  }

  function Run(k: Codec, cfg: Config, w: World, steps: seq<Step>): World
    decreases |steps|
  {
    if steps == [] then w else Run(k, cfg, Next(k, cfg, w, steps[0]), steps[1..])
  }

  // ----- the books of both sources -----

  function OfSource(evs: seq<NCEvent>, source: string): seq<NCEvent>
  {
    if evs == [] then []
    else (if evs[0].source == source then [evs[0]] else []) + OfSource(evs[1..], source)
  }

  lemma {:induction false} OfSourceConcat(a: seq<NCEvent>, b: seq<NCEvent>, source: string)
    ensures OfSource(a + b, source) == OfSource(a, source) + OfSource(b, source)
  {
    if a == [] {
      ConcatEmpty(b);
    } else {
      assert (a + b)[1..] == a[1..] + b;
      OfSourceConcat(a[1..], b, source);
      ConcatAssoc(if a[0].source == source then [a[0]] else [], OfSource(a[1..], source), OfSource(b, source));
    }
  }

  lemma {:induction false} OfOneSource(evs: seq<NCEvent>, from: string, source: string)
    requires forall ev :: ev in evs ==> ev.source == from
    ensures OfSource(evs, source) == if from == source then evs else []
  {
    if evs != [] {
      OfOneSource(evs[1..], from, source);
    }
  }

  function LostLines(seen: seq<Item>): seq<Bytes>
  {
    if seen == [] then []
    else (if seen[0].delivered then [] else [seen[0].line]) + LostLines(seen[1..])
  }

  lemma {:induction false} LostConcat(a: seq<Item>, b: seq<Item>)
    ensures LostLines(a + b) == LostLines(a) + LostLines(b)
  {
    if a == [] {
      assert a + b == b;
    } else {
      assert (a + b)[1..] == a[1..] + b;
      LostConcat(a[1..], b);
    }
  }

  lemma {:induction false} LostOfItems(ls: seq<Bytes>, delivered: bool)
    ensures LostLines(Items(ls, delivered)) == if delivered then [] else ls
  {
    if ls != [] {
      LostOfItems(ls[1..], delivered);
      assert Items(ls, delivered)[1..] == Items(ls[1..], delivered);
    }
  }

  lemma {:induction false} NothingLost(seen: seq<Item>)
    requires LostLines(seen) == []
    ensures DeliveredLines(seen) == LinesOf(seen)
  {
    if seen != [] {
      NothingLost(seen[1..]);
    }
  }

  /** The books of one source: `seen` accounts for every line behind the cursor; its delivered
      lines carry exactly the events returned for the source, its lost ones are exactly `lost`. */
  predicate SourceOk(k: Codec, source: string, max: nat, path: string, c: Option<Cursor>, log: Log,
                     seen: seq<Item>, sent: seq<NCEvent>, lost: seq<Bytes>)
  {
    && (!log.present ==> log.cur == [])
    && LostLines(seen) == lost
    && sent == Harvest(k, source, max, DeliveredLines(seen))
    && if FirstRun(c, path) then seen == [] else Accounted(path, log, c.value, seen)
  }

  /** A step of the environment keeps the books of the source it acts on. */
  lemma EnvKeepsSource(k: Codec, source: string, max: nat, path: string, c: Option<Cursor>, log: Log,
                       seen: seq<Item>, sent: seq<NCEvent>, lost: seq<Bytes>, e: EnvStep)
    returns (seen': seq<Item>)
    requires SourceOk(k, source, max, path, c, log, seen, sent, lost)
    requires EnvStepOk(path, c, log, e)
    ensures SourceOk(k, source, max, path, c, EnvNext(log, e), seen', sent, lost + GivenUp(path, c, log, e))
  {
    seen' := seen;
    ConcatEmpty(lost);
    if !FirstRun(c, path) {
      if e.Append? {
        AppendKeepsAccount(path, log, c.value, seen, e.bytes);
      } else {
        var gone := PrevLines(log, c.value);
        RotateKeepsAccount(path, log, c.value, seen, e);
        seen' := seen + Items(gone, false);
        LostConcat(seen, Items(gone, false));
        LostOfItems(gone, false);
        ItemsConcat(seen, Items(gone, false));
        ConcatEmpty(DeliveredLines(seen));
      }
    }
  }

  /** A source was read, its events are its own, and its books balance with them. */
  predicate RoundOk(k: Codec, source: string, max: nat, path: string, c: Option<Cursor>, log: Log,
                    seen: seq<Item>, sent: seq<NCEvent>, lost: seq<Bytes>, r: SourceResult)
  {
    && r.meter.max == max
    && (forall ev :: ev in r.events ==> ev.source == source)
    && SourceOk(k, source, max, path, Some(r.cursor), LogSeen(path, c, log), seen, sent + r.events, lost)
  }

  lemma FirstRoundKeepsSource(k: Codec, source: string, max: nat, path: string, c: Option<Cursor>, log: Log,
                              seen: seq<Item>, sent: seq<NCEvent>, lost: seq<Bytes>, snap: Snapshot, m: Meter)
    requires SourceOk(k, source, max, path, c, log, seen, sent, lost)
    requires FirstRun(c, path) && Shows(snap, path, log) && m.max == max
    ensures var r := ReadSource(k, source, c, path, snap, m);
            r.Some? && RoundOk(k, source, max, path, c, log, seen, sent, lost, r.value)
  {
    FirstRoundOpensAccount(k, source, c, path, log, snap, m);
    ConcatEmpty(sent);
    hide Synced, AllLines, Pending, ReadSource;
  }

  lemma AccountedPath(path: string, log: Log, c: Cursor, seen: seq<Item>)
    requires Accounted(path, log, c, seen)
    ensures c.path == path
  {
  }

  lemma LaterRoundKeepsSource(k: Codec, source: string, max: nat, path: string, c: Option<Cursor>, log: Log,
                              seen: seq<Item>, sent: seq<NCEvent>, lost: seq<Bytes>, snap: Snapshot, m: Meter)
    returns (seen': seq<Item>)
    requires SourceOk(k, source, max, path, c, log, seen, sent, lost)
    requires !FirstRun(c, path) && Noticed(path, c, log) && Shows(snap, path, log) && m.max == max
    ensures var r := ReadSource(k, source, c, path, snap, m);
            r.Some? && RoundOk(k, source, max, path, c, log, seen', sent, lost, r.value)
  {
    hide Accounted, ReadSource, Shows, Detected, Harvest, LostLines, LinesOf, DeliveredLines;
    var read := RoundKeepsAccount(k, source, path, log, c.value, seen, snap, m);
    AccountedPath(path, log.(rotated := false), ReadSource(k, source, c, path, snap, m).value.cursor,
                  seen + Items(read, true));
    seen' := seen + Items(read, true);
    LostConcat(seen, Items(read, true));
    LostOfItems(read, true);
    ItemsConcat(seen, Items(read, true));
    HarvestConcat(k, source, max, DeliveredLines(seen), read);
    ConcatEmpty(lost);
  }

  /** A successful round keeps the books of each source it reads. */
  lemma RoundKeepsSource(k: Codec, source: string, max: nat, path: string, c: Option<Cursor>, log: Log,
                         seen: seq<Item>, sent: seq<NCEvent>, lost: seq<Bytes>, snap: Snapshot, m: Meter)
    returns (seen': seq<Item>)
    requires SourceOk(k, source, max, path, c, log, seen, sent, lost)
    requires Noticed(path, c, log) && Shows(snap, path, log) && m.max == max
    ensures var r := ReadSource(k, source, c, path, snap, m);
            r.Some? && RoundOk(k, source, max, path, c, log, seen', sent, lost, r.value)
  {
    hide SourceOk, RoundOk, ReadSource, Shows, Noticed;
    if FirstRun(c, path) {
      FirstRoundKeepsSource(k, source, max, path, c, log, seen, sent, lost, snap, m);
      seen' := seen;
    } else {
      seen' := LaterRoundKeepsSource(k, source, max, path, c, log, seen, sent, lost, snap, m);
    }
  }

  predicate AppOk(k: Codec, cfg: Config, w: World, seen: seq<Item>)
  {
    SourceOk(k, "app", NewMeter(k, cfg).max, cfg.nextcloudLog, AppCursor(w), w.app, seen, OfSource(w.returned, "app"),
             w.lostApp)
  }

  predicate AuditOk(k: Codec, cfg: Config, w: World, seen: seq<Item>)
  {
    SourceOk(k, "audit", NewMeter(k, cfg).max, cfg.ncAuditLog, AuditCursor(w), w.audit, seen,
             OfSource(w.returned, "audit"), w.lostAudit)
  }

  lemma RoundKeepsBooks(k: Codec, cfg: Config, w: World, seenApp: seq<Item>, seenAudit: seq<Item>, snap: Snapshot,
                        f: Faults)
    returns (seenApp': seq<Item>, seenAudit': seq<Item>)
    requires ConfigOk(cfg) && MarkOk(w.dir)
    requires AppOk(k, cfg, w, seenApp) && AuditOk(k, cfg, w, seenAudit)
    requires StepOk(k, cfg, w, Round(snap, f))
    ensures var w' := Next(k, cfg, w, Round(snap, f));
            MarkOk(w'.dir) && AppOk(k, cfg, w', seenApp') && AuditOk(k, cfg, w', seenAudit')
  {
    RoundKeepsLedger(k, cfg, snap, w.dir, f);
    var (d, o) := Collect(k, cfg, snap, w.dir, f);
    seenApp', seenAudit' := seenApp, seenAudit;
    if !o.Collected? {
      ConcatEmpty(w.returned);
    } else {
      seenApp', seenAudit' := SuccessKeepsBooks(k, cfg, w, seenApp, seenAudit, snap, f);
    }
  }

  /** Reading one source and then the other keeps the books of both. */
  lemma PairKeepsSources(k: Codec, max: nat, snap: Snapshot, m: Meter,
                         s1: string, path1: string, c1: Option<Cursor>, log1: Log, seen1: seq<Item>,
                             sent1: seq<NCEvent>, lost1: seq<Bytes>,
                         s2: string, path2: string, c2: Option<Cursor>, log2: Log, seen2: seq<Item>,
                             sent2: seq<NCEvent>, lost2: seq<Bytes>)
    returns (seen1': seq<Item>, seen2': seq<Item>)
    requires SourceOk(k, s1, max, path1, c1, log1, seen1, sent1, lost1)
    requires SourceOk(k, s2, max, path2, c2, log2, seen2, sent2, lost2)
    requires Noticed(path1, c1, log1) && Shows(snap, path1, log1)
    requires Noticed(path2, c2, log2) && Shows(snap, path2, log2)
    requires m.max == max
    ensures var r := ReadPair(k, snap, m, s1, path1, c1, s2, path2, c2);
            && r.Some?
            && RoundOk(k, s1, max, path1, c1, log1, seen1', sent1, lost1, r.value.0)
            && RoundOk(k, s2, max, path2, c2, log2, seen2', sent2, lost2, r.value.1)
  {
    hide SourceOk, ReadSource, Shows, Noticed, LogSeen;
    seen1' := RoundKeepsSource(k, s1, max, path1, c1, log1, seen1, sent1, lost1, snap, WithQuota(m, 2));
    var r1 := ReadSource(k, s1, c1, path1, snap, WithQuota(m, 2)).value;
    seen2' := RoundKeepsSource(k, s2, max, path2, c2, log2, seen2, sent2, lost2, snap, WithQuota(r1.meter, 1));
  }

  lemma ReadBothKeepsSources(k: Codec, cfg: Config, w: World, st: State, seenApp: seq<Item>, seenAudit: seq<Item>,
                             snap: Snapshot)
    returns (seenApp': seq<Item>, seenAudit': seq<Item>)
    requires AppOk(k, cfg, w, seenApp) && AuditOk(k, cfg, w, seenAudit)
    requires st.app == AppCursor(w) && st.audit == AuditCursor(w)
    requires Shows(snap, cfg.nextcloudLog, w.app) && Shows(snap, cfg.ncAuditLog, w.audit)
    requires Noticed(cfg.nextcloudLog, st.app, w.app) && Noticed(cfg.ncAuditLog, st.audit, w.audit)
    ensures var r := ReadBoth(k, cfg, snap, st);
            var max := NewMeter(k, cfg).max;
            && r.Some?
            && RoundOk(k, "app", max, cfg.nextcloudLog, st.app, w.app, seenApp', OfSource(w.returned, "app"),
                       w.lostApp, r.value.app)
            && RoundOk(k, "audit", max, cfg.ncAuditLog, st.audit, w.audit, seenAudit', OfSource(w.returned, "audit"),
                       w.lostAudit,
                       r.value.audit)
  {
    var m := NewMeter(k, cfg);
    var sentApp, sentAudit := OfSource(w.returned, "app"), OfSource(w.returned, "audit");
    if st.round % 2 == 1 {
      seenAudit', seenApp' := PairKeepsSources(k, m.max, snap, m,
        "audit", cfg.ncAuditLog, st.audit, w.audit, seenAudit, sentAudit, w.lostAudit,
        "app", cfg.nextcloudLog, st.app, w.app, seenApp, sentApp, w.lostApp);
    } else {
      seenApp', seenAudit' := PairKeepsSources(k, m.max, snap, m,
        "app", cfg.nextcloudLog, st.app, w.app, seenApp, sentApp, w.lostApp,
        "audit", cfg.ncAuditLog, st.audit, w.audit, seenAudit, sentAudit, w.lostAudit);
    }
  }

  /** A successful round saves the cursors it read and returns the events of both. */
  lemma SuccessOutcome(k: Codec, cfg: Config, snap: Snapshot, d: Dir, f: Faults)
    requires ConfigOk(cfg) && Collect(k, cfg, snap, d, f).1.Collected?
    ensures var st := LoadState(d.stateFile).(appending := None);
            var r := ReadBoth(k, cfg, snap, st);
            var (d', o) := Collect(k, cfg, snap, d, f);
            && r.Some?
            && LoadState(d'.stateFile) == r.value.NextState(st.round)
            && Returned(o) == r.value.app.events + r.value.audit.events
  {
    var st := LoadState(d.stateFile).(appending := None);
    WellFormedReading(k, cfg, snap, st);
    StateRoundTrip(ReadBoth(k, cfg, snap, st).value.NextState(st.round));
  }

  lemma SuccessKeepsBooks(k: Codec, cfg: Config, w: World, seenApp: seq<Item>, seenAudit: seq<Item>, snap: Snapshot,
                          f: Faults)
    returns (seenApp': seq<Item>, seenAudit': seq<Item>)
    requires ConfigOk(cfg)
    requires AppOk(k, cfg, w, seenApp) && AuditOk(k, cfg, w, seenAudit)
    requires StepOk(k, cfg, w, Round(snap, f)) && Collect(k, cfg, snap, w.dir, f).1.Collected?
    ensures var w' := Next(k, cfg, w, Round(snap, f));
            AppOk(k, cfg, w', seenApp') && AuditOk(k, cfg, w', seenAudit')
  {
    var st := LoadState(w.dir.stateFile).(appending := None);
    SuccessOutcome(k, cfg, snap, w.dir, f);
    seenApp', seenAudit' := ReadBothKeepsSources(k, cfg, w, st, seenApp, seenAudit, snap);
    var r := ReadBoth(k, cfg, snap, st).value;
    SplitReturned(w.returned, r.app.events, r.audit.events, "app");
    SplitReturned(w.returned, r.app.events, r.audit.events, "audit");
  }

  lemma SplitReturned(returned: seq<NCEvent>, app: seq<NCEvent>, audit: seq<NCEvent>, source: string)
    requires forall ev :: ev in app ==> ev.source == "app"
    requires forall ev :: ev in audit ==> ev.source == "audit"
    requires source == "app" || source == "audit"
    ensures OfSource(returned + (app + audit), source)
         == OfSource(returned, source) + (if source == "app" then app else audit)
  {
    OfSourceConcat(returned, app + audit, source);
    OfSourceConcat(app, audit, source);
    OfOneSource(app, "app", source);
    OfOneSource(audit, "audit", source);
    assert "app" != "audit" by { assert |"app"| != |"audit"|; }
    ConcatEmpty(app);
    ConcatEmpty(audit);
  }

  lemma StepKeepsBooks(k: Codec, cfg: Config, w: World, seenApp: seq<Item>, seenAudit: seq<Item>, s: Step)
    returns (seenApp': seq<Item>, seenAudit': seq<Item>)
    requires ConfigOk(cfg) && MarkOk(w.dir)
    requires AppOk(k, cfg, w, seenApp) && AuditOk(k, cfg, w, seenAudit)
    requires StepOk(k, cfg, w, s)
    ensures var w' := Next(k, cfg, w, s);
            MarkOk(w'.dir) && AppOk(k, cfg, w', seenApp') && AuditOk(k, cfg, w', seenAudit')
  {
    seenApp', seenAudit' := seenApp, seenAudit;
    match s
    case OnApp(e) =>
      seenApp' := EnvKeepsSource(k, "app", NewMeter(k, cfg).max, cfg.nextcloudLog, AppCursor(w), w.app,
                                 seenApp, OfSource(w.returned, "app"), w.lostApp, e);
    case OnAudit(e) =>
      seenAudit' := EnvKeepsSource(k, "audit", NewMeter(k, cfg).max, cfg.ncAuditLog, AuditCursor(w), w.audit,
                                   seenAudit, OfSource(w.returned, "audit"), w.lostAudit, e);
    case Round(snap, f) =>
      seenApp', seenAudit' := RoundKeepsBooks(k, cfg, w, seenApp, seenAudit, snap, f);
  }

  lemma {:induction false} RunKeepsBooks(k: Codec, cfg: Config, w: World, seenApp: seq<Item>, seenAudit: seq<Item>,
                                         steps: seq<Step>)
    returns (seenApp': seq<Item>, seenAudit': seq<Item>)
    requires ConfigOk(cfg) && MarkOk(w.dir)
    requires AppOk(k, cfg, w, seenApp) && AuditOk(k, cfg, w, seenAudit)
    requires RunOk(k, cfg, w, steps)
    ensures var w' := Run(k, cfg, w, steps);
            MarkOk(w'.dir) && AppOk(k, cfg, w', seenApp') && AuditOk(k, cfg, w', seenAudit')
    decreases |steps|
  {
    seenApp', seenAudit' := seenApp, seenAudit;
    if steps != [] {
      seenApp', seenAudit' := StepKeepsBooks(k, cfg, w, seenApp, seenAudit, steps[0]);
      seenApp', seenAudit' := RunKeepsBooks(k, cfg, Next(k, cfg, w, steps[0]), seenApp', seenAudit', steps[1..]);
    }
  }

  // ----- the main results -----

  /** Nothing is recorded or returned yet; the logs may hold anything, `.1` included. */
  predicate Fresh(w: World)
  {
    && AppCursor(w).None? && AuditCursor(w).None? && LoadState(w.dir.stateFile).appending.None?
    && w.returned == [] && w.lostApp == [] && w.lostAudit == [] && w.archive == []
    && (!w.app.present ==> w.app.cur == []) && (!w.audit.present ==> w.audit.cur == [])
  }

  /** What is owed for one source at the end of a run: everything of every generation since
      the first contact, split into what was returned, what was given up, and what is pending. */
  predicate Settles(k: Codec, source: string, max: nat, path: string, c: Option<Cursor>, log: Log,
                    sent: seq<NCEvent>, lost: seq<Bytes>, seen: seq<Item>)
  {
    && sent == Harvest(k, source, max, DeliveredLines(seen))
    && lost == LostLines(seen)
    && (FirstRun(c, path) ==> sent == [] && lost == [])
    && (!FirstRun(c, path) ==>
          && (c.value.prev.Some? || log.rotated ==> log.done != [])
          && LinesOf(seen) + Pending(log, c.value) == AllLines(log)
          && (lost == [] ==>
                sent + Harvest(k, source, max, Pending(log, c.value)) == Harvest(k, source, max, AllLines(log))))
  }

  lemma BooksSettle(k: Codec, source: string, max: nat, path: string, c: Option<Cursor>, log: Log,
                    seen: seq<Item>, sent: seq<NCEvent>, lost: seq<Bytes>)
    requires SourceOk(k, source, max, path, c, log, seen, sent, lost)
    ensures Settles(k, source, max, path, c, log, sent, lost, seen)
  {
    if !FirstRun(c, path) && lost == [] {
      NothingLost(seen);
      HarvestConcat(k, source, max, LinesOf(seen), Pending(log, c.value));
    }
  }

  /** Exactly once. In every run the events returned for a source are those of its lines since
      the first contact, in order and never twice; the only lines missing are the ones a
      further rotation gave up. Without such a rotation, returned and pending together are
      exactly what the log holds. */
  lemma ExactlyOnce(k: Codec, cfg: Config, w: World, steps: seq<Step>)
    returns (seenApp: seq<Item>, seenAudit: seq<Item>)
    requires ConfigOk(cfg) && Fresh(w) && RunOk(k, cfg, w, steps)
    ensures var w' := Run(k, cfg, w, steps);
            var max := NewMeter(k, cfg).max;
            && Settles(k, "app", max, cfg.nextcloudLog, AppCursor(w'), w'.app, OfSource(w'.returned, "app"),
                       w'.lostApp, seenApp)
            && Settles(k, "audit", max, cfg.ncAuditLog, AuditCursor(w'), w'.audit, OfSource(w'.returned, "audit"),
                       w'.lostAudit, seenAudit)
  {
    seenApp, seenAudit := RunKeepsBooks(k, cfg, w, [], [], steps);
    var w' := Run(k, cfg, w, steps);
    var max := NewMeter(k, cfg).max;
    BooksSettle(k, "app", max, cfg.nextcloudLog, AppCursor(w'), w'.app, seenApp, OfSource(w'.returned, "app"),
                w'.lostApp);
    BooksSettle(k, "audit", max, cfg.ncAuditLog, AuditCursor(w'), w'.audit, seenAudit, OfSource(w'.returned, "audit"),
                w'.lostAudit);
  }

  /** No round of the run renames the local copy and then fails. */
  predicate NoFailedRename(k: Codec, cfg: Config, w: World, steps: seq<Step>)
    decreases |steps|
  {
    steps == [] ||
    (&& (steps[0].Round? && Rotates(k, cfg, steps[0].snap, w.dir, steps[0].faults) ==>
           Collect(k, cfg, steps[0].snap, w.dir, steps[0].faults).1.Collected?)
     && NoFailedRename(k, cfg, Next(k, cfg, w, steps[0]), steps[1..]))
  }

  lemma {:induction false} RunKeepsLedger(k: Codec, cfg: Config, w: World, steps: seq<Step>, before: Bytes)
    requires ConfigOk(cfg) && MarkOk(w.dir) && NoFailedRename(k, cfg, w, steps)
    requires w.archive + Settled(w.dir) == before + JsonlBytes(k, w.returned)
    ensures var w' := Run(k, cfg, w, steps);
            MarkOk(w'.dir) && w'.archive + Settled(w'.dir) == before + JsonlBytes(k, w'.returned)
    decreases |steps|
  {
    if steps != [] {
      var s := steps[0];
      if s.Round? {
        RoundExtendsLedger(k, cfg, w, s.snap, s.faults, before);
      }
      RunKeepsLedger(k, cfg, Next(k, cfg, w, s), steps[1..], before);
    }
  }

  lemma RoundExtendsLedger(k: Codec, cfg: Config, w: World, snap: Snapshot, f: Faults, before: Bytes)
    requires ConfigOk(cfg) && MarkOk(w.dir)
    requires Rotates(k, cfg, snap, w.dir, f) ==> Collect(k, cfg, snap, w.dir, f).1.Collected?
    requires w.archive + Settled(w.dir) == before + JsonlBytes(k, w.returned)
    ensures var w' := Next(k, cfg, w, Round(snap, f));
            MarkOk(w'.dir) && w'.archive + Settled(w'.dir) == before + JsonlBytes(k, w'.returned)
  {
    RoundKeepsLedger(k, cfg, snap, w.dir, f);
    var evs := Returned(Collect(k, cfg, snap, w.dir, f).1);
    JsonlBytesConcat(k, w.returned, evs);
    ConcatAssoc(w.archive, Settled(w.dir), JsonlBytes(k, evs));
    ConcatAssoc(before, JsonlBytes(k, w.returned), JsonlBytes(k, evs));
    ConcatEmpty(w.archive);
    ConcatEmpty(w.archive + (Settled(w.dir) + JsonlBytes(k, evs)));
  }

  /** The local copy is the record of what was returned. Whatever steps of whatever rounds
      fail, after a successful round the files renamed away and `nextcloud.jsonl` together are
      what was there before plus exactly the events returned, in order - in every run in which
      no round renames the local copy and then fails. */
  lemma LocalCopyRecordsReturned(k: Codec, cfg: Config, w: World, steps: seq<Step>, snap: Snapshot, f: Faults)
    requires ConfigOk(cfg) && Fresh(w)
    requires NoFailedRename(k, cfg, w, steps + [Round(snap, f)])
    requires Collect(k, cfg, snap, Run(k, cfg, w, steps).dir, f).1.Collected?
    ensures var w' := Next(k, cfg, Run(k, cfg, w, steps), Round(snap, f));
            w'.archive + Content(w'.dir.jsonl) == Content(w.dir.jsonl) + JsonlBytes(k, w'.returned)
  {
    RunSnoc(k, cfg, w, steps, Round(snap, f));
    RunKeepsLedger(k, cfg, w, steps, Content(w.dir.jsonl));
    var w1 := Run(k, cfg, w, steps);
    RoundExtendsLedger(k, cfg, w1, snap, f, Content(w.dir.jsonl));
    RoundKeepsLedger(k, cfg, snap, w1.dir, f);
  }

  lemma {:induction false} RunSnoc(k: Codec, cfg: Config, w: World, steps: seq<Step>, s: Step)
    requires NoFailedRename(k, cfg, w, steps + [s])
    ensures NoFailedRename(k, cfg, w, steps)
    ensures NoFailedRename(k, cfg, Run(k, cfg, w, steps), [s])
    decreases |steps|
  {
    if steps == [] {
      assert [] + [s] == [s];
    } else {
      assert (steps + [s])[1..] == steps[1..] + [s];
      RunSnoc(k, cfg, Next(k, cfg, w, steps[0]), steps[1..], s);
    }
  }
}
