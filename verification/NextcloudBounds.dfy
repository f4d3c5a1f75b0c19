/** Limits and progress of the tailer: a result always fits into its report, no source is
    kept waiting for ever, and a backlog drains. */
module NextcloudBounds {
  import opened Basics
  import opened Lines
  import opened NextcloudModel
  import opened NextcloudState
  import opened NextcloudSource
  import opened NextcloudLedger
  import opened NextcloudRuns

  // ----- the size of a result -----

  /** What one source spends is exactly what leaves the budget. */
  predicate Conserves(k: Codec, m: Meter, r: SourceResult)
  {
    && r.meter.max == m.max
    && r.meter.remaining + TotalCost(k, r.events) == m.remaining
    && r.meter.events + |r.events| == m.events
  }

  lemma DrainCurrentConserves(k: Codec, source: string, c: Cursor, file: Option<File>, m: Meter)
    requires file.Some? ==> file.value.Regular?
    ensures Conserves(k, m, DrainCurrent(k, source, c, file, m))
  {
    if file.Some? {
      ScanConserves(k, source, file.value.data, c.offset, false, m);
    }
  }

  lemma ReadSourceConserves(k: Codec, source: string, c: Option<Cursor>, path: string, snap: Snapshot, m: Meter)
    ensures var r := ReadSource(k, source, c, path, snap, m);
            r.Some? ==> Conserves(k, m, r.value)
  {
    var file := Lookup(snap, path);
    if !(file.Some? && file.value.Directory?) && !FirstRun(c, path) {
      var c1 := Reconcile(c.value, file, Lookup(snap, path + ".1"));
      if c1.prev.None? {
        DrainCurrentConserves(k, source, c1, file, m);
      } else {
        DrainCurrentConserves(k, source, c1.(prev := None), file, m);
        var pf := Lookup(snap, c1.prev.value.path);
        if PrevValid(c1.prev.value, pf) {
          var r := Scan(k, source, pf.value.data, c1.prev.value.offset, true, m);
          ScanConserves(k, source, pf.value.data, c1.prev.value.offset, true, m);
          DrainCurrentConserves(k, source, c1.(prev := None), file, r.meter);
          TotalCostConcat(k, r.events, DrainCurrent(k, source, c1.(prev := None), file, r.meter).events);
        }
      }
    }
  }

  /** Both sources together spend at most the whole budget. */
  lemma ReadBothConserves(k: Codec, cfg: Config, snap: Snapshot, st: State)
    ensures var r := ReadBoth(k, cfg, snap, st);
            r.Some? ==>
              TotalCost(k, r.value.Result().events) <= NewMeter(k, cfg).remaining
              && |r.value.Result().events| <= MAX_RESULT_EVENTS
  {
    var m := NewMeter(k, cfg);
    PairConserves(k, snap, m, "audit", cfg.ncAuditLog, st.audit, "app", cfg.nextcloudLog, st.app);
    PairConserves(k, snap, m, "app", cfg.nextcloudLog, st.app, "audit", cfg.ncAuditLog, st.audit);
    var r := ReadBoth(k, cfg, snap, st);
    if r.Some? {
      TotalCostConcat(k, r.value.app.events, r.value.audit.events);
    }
  }

  lemma PairConserves(k: Codec, snap: Snapshot, m: Meter, s1: string, path1: string, c1: Option<Cursor>,
                      s2: string, path2: string, c2: Option<Cursor>)
    ensures var r := ReadPair(k, snap, m, s1, path1, c1, s2, path2, c2);
            r.Some? ==>
              TotalCost(k, r.value.0.events) + TotalCost(k, r.value.1.events) <= m.remaining
              && |r.value.0.events| + |r.value.1.events| <= m.events
  {
    ReadSourceConserves(k, s1, c1, path1, snap, WithQuota(m, 2));
    var r1 := ReadSource(k, s1, c1, path1, snap, WithQuota(m, 2));
    if r1.Some? {
      ReadSourceConserves(k, s2, c2, path2, snap, WithQuota(r1.value.meter, 1));
    }
  }

  lemma {:induction false} CostsAreSizes(k: Codec, evs: seq<NCEvent>)
    ensures TotalCost(k, evs) == SumEncoded(k, evs) + |evs|
  {
    if evs != [] {
      CostsAreSizes(k, evs[1..]);
    }
  }

  lemma {:induction false} DigitsBound(n: nat, d: nat)
    requires d > 0 && n < Pow10(d)
    ensures Digits(n) <= d
  {
    if n >= 10 {
      DigitsBound(n / 10, d - 1);
    }
  }

  function Pow10(d: nat): nat { if d == 0 then 1 else 10 * Pow10(d - 1) }

  /** The envelope, with ten digits for either counter. */
  lemma EnvelopeIs(k: Codec, cfg: Config)
    ensures EnvelopeSize(k, cfg)
         == |"{\"new_events\":"| + 10 + |",\"jsonl_path\":"| + cfg.pathJson + |",\"truncated\":true"|
            + |",\"skipped_oversize\":"| + 10 + |"}"|
  {
    assert Digits(0x4000_0000) == 10 by {
      assert Digits(107374) == 6;
      assert Digits(1073741824) == 4 + Digits(107374);
    }
  }

  /** The serialized result never exceeds the limit, whatever the backlog of both sources. The
      envelope has to fit by itself (it does whenever any event is sent), and the number of
      skipped events has to stay below 10^17. */
  lemma ResultFits(k: Codec, cfg: Config, snap: Snapshot, st: State)
    requires ReadBoth(k, cfg, snap, st).Some?
    ensures var res := ReadBoth(k, cfg, snap, st).value.Result();
            && res.newEvents == |res.events| <= MAX_RESULT_EVENTS
            && (res.events != [] ==> EnvelopeFits(k, cfg))
            && (EnvelopeFits(k, cfg) && res.skippedOversize < Pow10(17) ==>
                  JsonSize(k, cfg, res) <= MAX_RESULT_JSON_BYTES)
  {
    var res := ReadBoth(k, cfg, snap, st).value.Result();
    ReadBothConserves(k, cfg, snap, st);
    hide ReadBoth, EnvelopeSize;
    CostsAreSizes(k, res.events);
    EnvelopeIs(k, cfg);
    assert Pow10(4) == 10000;
    DigitsBound(res.newEvents, 4);
    if res.skippedOversize < Pow10(17) {
      DigitsBound(res.skippedOversize, 17);
    }
  }

  // ----- progress -----

  /** A source that is read first in a round gets past its next line, whatever it is. */
  lemma ScanMoves(k: Codec, source: string, s: Bytes, i: nat, final: bool, m: Meter)
    requires HasLine(s, i, final)
    requires m.taken == 0 && m.remaining == m.max && m.events > 0
    ensures LinesBetween(s, i, Scan(k, source, s, i, final, m).offset) != []
  {
  }

  lemma DrainCurrentMoves(k: Codec, source: string, path: string, log: Log, c: Cursor, file: Option<File>, m: Meter)
    requires Reconciled(path, log, c) && c.prev.None?
    requires file == if log.present then Some(Regular(log.inode, log.cur)) else None
    ensures var r := DrainCurrent(k, source, c, file, m);
            && |LinesFrom(log.cur, r.cursor.offset, false)| <= |LinesFrom(log.cur, c.offset, false)|
            && (m.taken == 0 && m.remaining == m.max && m.events > 0 && HasLine(log.cur, c.offset, false) ==>
                  |LinesFrom(log.cur, r.cursor.offset, false)| < |LinesFrom(log.cur, c.offset, false)|)
  {
    ScanConsumes(k, source, log.cur, c.offset, false, m);
    if m.taken == 0 && m.remaining == m.max && m.events > 0 && HasLine(log.cur, c.offset, false) {
      ScanMoves(k, source, log.cur, c.offset, false, m);
    }
  }

  /** Draining never adds to what is pending, and makes it less for the source read first. */
  lemma DrainMoves(k: Codec, source: string, path: string, log: Log, c: Cursor, snap: Snapshot, m: Meter)
    requires Reconciled(path, log, c) && Shows(snap, path, log)
    ensures var r := Drain(k, source, c, snap, Lookup(snap, path), m);
            && Synced(path, log, r.cursor)
            && |Pending(log, r.cursor)| <= |Pending(log, c)|
            && (m.taken == 0 && m.remaining == m.max && m.events > 0 && Pending(log, c) != [] ==>
                  |Pending(log, r.cursor)| < |Pending(log, c)|)
  {
    var _ := DrainAdvances(k, source, path, log, c, snap, m);
    if c.prev.None? {
      DrainCurrentMoves(k, source, path, log, c, Lookup(snap, path), m);
    } else {
      var p := c.prev.value;
      var r := Scan(k, source, LastDone(log), p.offset, true, m);
      ScanConsumes(k, source, LastDone(log), p.offset, true, m);
      DrainCurrentMoves(k, source, path, log, c.(prev := None), Lookup(snap, path), r.meter);
      if HasLine(LastDone(log), p.offset, true) && m.taken == 0 && m.remaining == m.max && m.events > 0 {
        ScanMoves(k, source, LastDone(log), p.offset, true, m);
      }
    }
  }

  /** One round of one source, seen from outside: with `log'` and `c'` after it. */
  lemma ReadSourceMoves(k: Codec, source: string, path: string, log: Log, c: Cursor, seen: seq<Item>, snap: Snapshot,
                        m: Meter)
    requires Accounted(path, log, c, seen)
    requires log.rotated ==> Detected(log, c)
    requires Shows(snap, path, log)
    ensures var r := ReadSource(k, source, Some(c), path, snap, m);
            var log' := log.(rotated := false);
            && r.Some? && Synced(path, log', r.value.cursor)
            && |Pending(log', r.value.cursor)| <= |Pending(log, c)|
            && (m.taken == 0 && m.remaining == m.max && m.events > 0 && Pending(log, c) != [] ==>
                  |Pending(log', r.value.cursor)| < |Pending(log, c)|)
  {
    ReconcileResumes(path, log, c, snap);
    var c1 := Reconcile(c, Lookup(snap, path), Lookup(snap, path + ".1"));
    DrainMoves(k, source, path, log.(rotated := false), c1, snap, m);
  }

  /** The size limit for what a whole Collect returns. */
  lemma EveryResultFits(k: Codec, cfg: Config, snap: Snapshot, d: Dir, f: Faults)
    requires Collect(k, cfg, snap, d, f).1.Collected?
    ensures var res := Collect(k, cfg, snap, d, f).1.result;
            && |res.events| <= MAX_RESULT_EVENTS
            && ((EnvelopeFits(k, cfg) || res.events != []) && res.skippedOversize < Pow10(17) ==>
                  JsonSize(k, cfg, res) <= MAX_RESULT_JSON_BYTES)
  {
    var before := LoadState(d.stateFile).(appending := None);
    ResultFits(k, cfg, snap, before);
    hide JsonSize, ReadBoth;
    assert Collect(k, cfg, snap, d, f).1.result == ReadBoth(k, cfg, snap, before).value.Result();
  }

  // ----- progress over several rounds -----

  /** Both sources are past their first contact and their books balance. */
  predicate Running(k: Codec, cfg: Config, w: World, seenApp: seq<Item>, seenAudit: seq<Item>)
  {
    && ConfigOk(cfg) && MarkOk(w.dir)
    && AppOk(k, cfg, w, seenApp) && AuditOk(k, cfg, w, seenAudit)
    && !FirstRun(AppCursor(w), cfg.nextcloudLog) && !FirstRun(AuditCursor(w), cfg.ncAuditLog)
  }

  function Parity(w: World): nat { LoadState(w.dir.stateFile).round % 2 }

  function Waiting(path: string, c: Option<Cursor>, log: Log): nat
  {
    if !FirstRun(c, path) && (c.value.prev.Some? || log.rotated ==> log.done != []) then |Pending(log, c.value)| else 0
  }

  function AppWaiting(cfg: Config, w: World): nat { Waiting(cfg.nextcloudLog, AppCursor(w), w.app) }

  function AuditWaiting(cfg: Config, w: World): nat { Waiting(cfg.ncAuditLog, AuditCursor(w), w.audit) }

  predicate Succeeds(k: Codec, cfg: Config, w: World, s: Step)
  {
    s.Round? && StepOk(k, cfg, w, s) && Collect(k, cfg, s.snap, w.dir, s.faults).1.Collected?
  }

  lemma ParityFlips(round: nat)
    ensures NextRound(round) % 2 != round % 2
  {
  }

  /** The fresh budget is what the source read first finds. */
  lemma FreshMeter(k: Codec, cfg: Config)
    ensures var m := WithQuota(NewMeter(k, cfg), 2);
            m.taken == 0 && m.remaining == m.max && m.events > 0
  {
  }

  lemma PairMoves(k: Codec, snap: Snapshot, m: Meter,
                  s1: string, path1: string, c1: Cursor, log1: Log, seen1: seq<Item>,
                  s2: string, path2: string, c2: Cursor, log2: Log, seen2: seq<Item>)
    requires Accounted(path1, log1, c1, seen1) && Shows(snap, path1, log1) && (log1.rotated ==> Detected(log1, c1))
    requires Accounted(path2, log2, c2, seen2) && Shows(snap, path2, log2) && (log2.rotated ==> Detected(log2, c2))
    requires m.remaining == m.max && m.events > 0
    ensures var r := ReadPair(k, snap, m, s1, path1, Some(c1), s2, path2, Some(c2));
            && r.Some?
            && var w1 := Waiting(path1, Some(r.value.0.cursor), log1.(rotated := false));
               var w2 := Waiting(path2, Some(r.value.1.cursor), log2.(rotated := false));
               && (if Waiting(path1, Some(c1), log1) == 0 then w1 == 0 else w1 < Waiting(path1, Some(c1), log1))
               && w2 <= Waiting(path2, Some(c2), log2)
  {
    hide ReadSource, Pending, Shows, AllLines, Detected, LinesOf;
    ReadSourceMoves(k, s1, path1, log1, c1, seen1, snap, WithQuota(m, 2));
    var r1 := ReadSource(k, s1, Some(c1), path1, snap, WithQuota(m, 2)).value;
    ReadSourceMoves(k, s2, path2, log2, c2, seen2, snap, WithQuota(r1.meter, 1));
  }

  /** What a successful round leaves behind: the cursors it read, the logs as seen. */
  lemma SuccessState(k: Codec, cfg: Config, w: World, seenApp: seq<Item>, seenAudit: seq<Item>, s: Step)
    requires Running(k, cfg, w, seenApp, seenAudit) && Succeeds(k, cfg, w, s)
    ensures var st := LoadState(w.dir.stateFile).(appending := None);
            var r := ReadBoth(k, cfg, s.snap, st);
            var w' := Next(k, cfg, w, s);
            && r.Some?
            && AppCursor(w') == Some(r.value.app.cursor) && AuditCursor(w') == Some(r.value.audit.cursor)
            && w'.app == w.app.(rotated := false) && w'.audit == w.audit.(rotated := false)
            && Parity(w') != Parity(w)
  {
    SuccessOutcome(k, cfg, s.snap, w.dir, s.faults);
    hide AppOk, AuditOk, ReadBoth, MarkOk;
    ParityFlips(LoadState(w.dir.stateFile).round);
  }

  lemma ReadBothMoves(k: Codec, cfg: Config, w: World, seenApp: seq<Item>, seenAudit: seq<Item>, s: Step)
    requires Running(k, cfg, w, seenApp, seenAudit) && Succeeds(k, cfg, w, s)
    ensures var r := ReadBoth(k, cfg, s.snap, LoadState(w.dir.stateFile).(appending := None));
            && r.Some?
            && var app := Waiting(cfg.nextcloudLog, Some(r.value.app.cursor), w.app.(rotated := false));
               var audit := Waiting(cfg.ncAuditLog, Some(r.value.audit.cursor), w.audit.(rotated := false));
               && app <= AppWaiting(cfg, w) && audit <= AuditWaiting(cfg, w)
               && (Parity(w) == 0 && AppWaiting(cfg, w) > 0 ==> app < AppWaiting(cfg, w))
               && (Parity(w) == 1 && AuditWaiting(cfg, w) > 0 ==> audit < AuditWaiting(cfg, w))
  {
    var st := LoadState(w.dir.stateFile).(appending := None);
    FreshMeter(k, cfg);
    var m := NewMeter(k, cfg);
    hide Waiting, Shows, ReadPair, Accounted, Detected, Collect, NewMeter;
    if st.round % 2 == 1 {
      PairMoves(k, s.snap, m, "audit", cfg.ncAuditLog, st.audit.value, w.audit, seenAudit,
                "app", cfg.nextcloudLog, st.app.value, w.app, seenApp);
    } else {
      PairMoves(k, s.snap, m, "app", cfg.nextcloudLog, st.app.value, w.app, seenApp,
                "audit", cfg.ncAuditLog, st.audit.value, w.audit, seenAudit);
    }
  }

  /** A successful round never leaves more lines waiting, leaves fewer for the source whose
      turn it is to be read first, and gives the next turn to the other source. */
  lemma RoundMoves(k: Codec, cfg: Config, w: World, seenApp: seq<Item>, seenAudit: seq<Item>, s: Step)
    returns (seenApp': seq<Item>, seenAudit': seq<Item>)
    requires Running(k, cfg, w, seenApp, seenAudit) && Succeeds(k, cfg, w, s)
    ensures var w' := Next(k, cfg, w, s);
            && Running(k, cfg, w', seenApp', seenAudit')
            && Parity(w') != Parity(w)
            && w'.app == w.app.(rotated := false) && w'.audit == w.audit.(rotated := false)
            && AppWaiting(cfg, w') <= AppWaiting(cfg, w) && AuditWaiting(cfg, w') <= AuditWaiting(cfg, w)
            && (Parity(w) == 0 && AppWaiting(cfg, w) > 0 ==> AppWaiting(cfg, w') < AppWaiting(cfg, w))
            && (Parity(w) == 1 && AuditWaiting(cfg, w) > 0 ==> AuditWaiting(cfg, w') < AuditWaiting(cfg, w))
  {
    seenApp', seenAudit' := StepKeepsBooks(k, cfg, w, seenApp, seenAudit, s);
    SuccessState(k, cfg, w, seenApp, seenAudit, s);
    ReadBothMoves(k, cfg, w, seenApp, seenAudit, s);
    BothContacted(k, cfg, w, s);
    hide AppOk, AuditOk, ReadBoth, Waiting, Succeeds, MarkOk, Next;
  }

  lemma BothContacted(k: Codec, cfg: Config, w: World, s: Step)
    requires ConfigOk(cfg) && Succeeds(k, cfg, w, s)
    ensures var w' := Next(k, cfg, w, s);
            !FirstRun(AppCursor(w'), cfg.nextcloudLog) && !FirstRun(AuditCursor(w'), cfg.ncAuditLog)
  {
    SuccessOutcome(k, cfg, s.snap, w.dir, s.faults);
    var st := LoadState(w.dir.stateFile).(appending := None);
    PairKeepsPaths(k, s.snap, NewMeter(k, cfg), "audit", cfg.ncAuditLog, st.audit, "app", cfg.nextcloudLog, st.app);
    PairKeepsPaths(k, s.snap, NewMeter(k, cfg), "app", cfg.nextcloudLog, st.app, "audit", cfg.ncAuditLog, st.audit);
    hide ReadPair, Noticed, Shows;
  }

  lemma ReadSourceKeepsPath(k: Codec, source: string, c: Option<Cursor>, path: string, snap: Snapshot, m: Meter)
    ensures var r := ReadSource(k, source, c, path, snap, m);
            r.Some? ==> r.value.cursor.path == path
  {
  }

  lemma PairKeepsPaths(k: Codec, snap: Snapshot, m: Meter, s1: string, path1: string, c1: Option<Cursor>,
                       s2: string, path2: string, c2: Option<Cursor>)
    ensures var r := ReadPair(k, snap, m, s1, path1, c1, s2, path2, c2);
            r.Some? ==> r.value.0.cursor.path == path1 && r.value.1.cursor.path == path2
  {
    ReadSourceKeepsPath(k, s1, c1, path1, snap, WithQuota(m, 2));
    var r1 := ReadSource(k, s1, c1, path1, snap, WithQuota(m, 2));
    if r1.Some? {
      ReadSourceKeepsPath(k, s2, c2, path2, snap, WithQuota(r1.value.meter, 1));
    }
  }

  predicate AllSucceed(k: Codec, cfg: Config, w: World, steps: seq<Step>)
    decreases |steps|
  {
    steps == [] || (Succeeds(k, cfg, w, steps[0]) && AllSucceed(k, cfg, Next(k, cfg, w, steps[0]), steps[1..]))
  }

  /** A fixed backlog drains: when nothing more is written, two successful rounds per waiting
      line are enough, however large the lines and however unequal the two sources. */
  lemma {:induction false} BacklogDrains(k: Codec, cfg: Config, w: World, seenApp: seq<Item>, seenAudit: seq<Item>,
                                         steps: seq<Step>)
    requires Running(k, cfg, w, seenApp, seenAudit) && AllSucceed(k, cfg, w, steps)
    requires |steps| >= 2 * (AppWaiting(cfg, w) + AuditWaiting(cfg, w))
    ensures var w' := Run(k, cfg, w, steps);
            AppWaiting(cfg, w') == 0 && AuditWaiting(cfg, w') == 0
    decreases |steps|
  {
    hide Running, Succeeds, Next, Waiting;
    if steps != [] {
      var w1 := Next(k, cfg, w, steps[0]);
      var seenApp1, seenAudit1 := RoundMoves(k, cfg, w, seenApp, seenAudit, steps[0]);
      var rest := steps[1..];
      if rest == [] {
        return;
      }
      var seenApp2, seenAudit2 := RoundMoves(k, cfg, w1, seenApp1, seenAudit1, rest[0]);
      BacklogDrains(k, cfg, Next(k, cfg, w1, rest[0]), seenApp2, seenAudit2, rest[1..]);
    }
  }

  /** The first successful round of any run from a fresh installation gets the tailer running. */
  lemma FirstSuccessRuns(k: Codec, cfg: Config, w: World, steps: seq<Step>, s: Step)
    returns (seenApp: seq<Item>, seenAudit: seq<Item>)
    requires ConfigOk(cfg) && Fresh(w) && RunOk(k, cfg, w, steps)
    requires Succeeds(k, cfg, Run(k, cfg, w, steps), s)
    ensures Running(k, cfg, Next(k, cfg, Run(k, cfg, w, steps), s), seenApp, seenAudit)
  {
    FreshBooks(k, cfg, w);
    hide Fresh, AppOk, AuditOk, MarkOk, Next, Collect, StepOk;
    seenApp, seenAudit := RunKeepsBooks(k, cfg, w, [], [], steps);
    var w' := Run(k, cfg, w, steps);
    BothContacted(k, cfg, w', s);
    seenApp, seenAudit := StepKeepsBooks(k, cfg, w', seenApp, seenAudit, s);
  }

  lemma FreshBooks(k: Codec, cfg: Config, w: World)
    requires Fresh(w)
    ensures MarkOk(w.dir) && AppOk(k, cfg, w, []) && AuditOk(k, cfg, w, [])
  {
  }

  lemma {:induction false} SuccessKeepsRunning(k: Codec, cfg: Config, w: World, seenApp: seq<Item>,
                                               seenAudit: seq<Item>, steps: seq<Step>)
    returns (seenApp': seq<Item>, seenAudit': seq<Item>)
    requires Running(k, cfg, w, seenApp, seenAudit) && AllSucceed(k, cfg, w, steps)
    ensures Running(k, cfg, Run(k, cfg, w, steps), seenApp', seenAudit')
    decreases |steps|
  {
    seenApp', seenAudit' := seenApp, seenAudit;
    if steps != [] {
      hide Running, Succeeds, Next;
      seenApp', seenAudit' := RoundMoves(k, cfg, w, seenApp, seenAudit, steps[0]);
      seenApp', seenAudit' := SuccessKeepsRunning(k, cfg, Next(k, cfg, w, steps[0]), seenApp', seenAudit', steps[1..]);
    }
  }

  /** With nothing waiting, what was returned is everything that was written. */
  lemma NothingWaitingMeansAllReturned(k: Codec, source: string, max: nat, path: string, c: Option<Cursor>, log: Log,
                                       seen: seq<Item>, sent: seq<NCEvent>, lost: seq<Bytes>)
    requires SourceOk(k, source, max, path, c, log, seen, sent, lost)
    requires !FirstRun(c, path) && Waiting(path, c, log) == 0
    ensures lost == [] ==> sent == Harvest(k, source, max, AllLines(log))
  {
    BooksSettle(k, source, max, path, c, log, seen, sent, lost);
    hide Pending, AllLines, Accounted;
    ConcatEmpty(sent);
  }

  /** Everything is returned in the end, and exactly once: start from a fresh installation, let
      anything happen up to and including a first successful round, and then write nothing
      more. After two successful rounds per waiting line the events returned for a source are
      exactly those of all lines of all its generations, unless a rotation gave some up. */
  lemma EverythingIsReturned(k: Codec, cfg: Config, w: World, steps: seq<Step>, s: Step, rounds: seq<Step>)
    requires ConfigOk(cfg) && Fresh(w) && RunOk(k, cfg, w, steps)
    requires Succeeds(k, cfg, Run(k, cfg, w, steps), s)
    requires AllSucceed(k, cfg, Next(k, cfg, Run(k, cfg, w, steps), s), rounds)
    requires var w1 := Next(k, cfg, Run(k, cfg, w, steps), s);
             |rounds| >= 2 * (AppWaiting(cfg, w1) + AuditWaiting(cfg, w1))
    ensures var w' := Run(k, cfg, Next(k, cfg, Run(k, cfg, w, steps), s), rounds);
            var max := NewMeter(k, cfg).max;
            && (w'.lostApp == [] ==> OfSource(w'.returned, "app") == Harvest(k, "app", max, AllLines(w'.app)))
            && (w'.lostAudit == [] ==> OfSource(w'.returned, "audit") == Harvest(k, "audit", max, AllLines(w'.audit)))
  {
    var w1 := Next(k, cfg, Run(k, cfg, w, steps), s);
    var w' := Run(k, cfg, w1, rounds);
    var seenApp, seenAudit := FirstSuccessRuns(k, cfg, w, steps, s);
    hide Fresh, RunOk, Succeeds, AllSucceed, Next, Run, Waiting, SourceOk;
    BacklogDrains(k, cfg, w1, seenApp, seenAudit, rounds);
    seenApp, seenAudit := SuccessKeepsRunning(k, cfg, w1, seenApp, seenAudit, rounds);
    var max := NewMeter(k, cfg).max;
    NothingWaitingMeansAllReturned(k, "app", max, cfg.nextcloudLog, AppCursor(w'), w'.app, seenApp,
                                   OfSource(w'.returned, "app"), w'.lostApp);
    NothingWaitingMeansAllReturned(k, "audit", max, cfg.ncAuditLog, AuditCursor(w'), w'.audit, seenAudit,
                                   OfSource(w'.returned, "audit"), w'.lostAudit);
  }

  // ----- no source is kept waiting -----

  /** Lines of a source that the collector is done with. */
  function Done(path: string, c: Option<Cursor>, log: Log): int
  {
    |AllLines(log)| - Waiting(path, c, log)
  }

  /** What may happen between two successful rounds without a rotation: lines are appended,
      rounds fail. */
  predicate QuietStep(k: Codec, cfg: Config, w: World, s: Step)
  {
    && StepOk(k, cfg, w, s)
    && match s
       case OnApp(e) => e.Append?
       case OnAudit(e) => e.Append?
       case Round(snap, f) => !Collect(k, cfg, snap, w.dir, f).1.Collected?
  }

  predicate Quiet(k: Codec, cfg: Config, w: World, steps: seq<Step>)
    decreases |steps|
  {
    steps == [] || (QuietStep(k, cfg, w, steps[0]) && Quiet(k, cfg, Next(k, cfg, w, steps[0]), steps[1..]))
  }

  lemma DoneIsSeen(path: string, log: Log, c: Cursor, seen: seq<Item>)
    requires Accounted(path, log, c, seen)
    ensures Done(path, Some(c), log) == |LinesOf(seen)|
  {
    hide AllLines, Pending, LinesOf;
    assert |LinesOf(seen) + Pending(log, c)| == |AllLines(log)|;
  }

  lemma AppendAddsWaiting(path: string, log: Log, c: Cursor, bytes: Bytes)
    ensures Waiting(path, Some(c), EnvNext(log, Append(bytes))) >= Waiting(path, Some(c), log)
  {
    var from := if log.rotated then 0 else c.offset;
    if c.path == path && (c.prev.Some? || log.rotated ==> log.done != []) {
      if from <= |log.cur| {
        LinesAppend(log.cur, bytes, from);
        hide LinesFrom, Pending;
        PendingAppend(log, c, bytes, LinesFrom(log.cur + bytes, StopAt(log.cur, from, false), false));
      }
    }
  }

  lemma AppendLeavesDone(path: string, log: Log, c: Cursor, seen: seq<Item>, bytes: Bytes)
    requires Accounted(path, log, c, seen)
    ensures Done(path, Some(c), EnvNext(log, Append(bytes))) == Done(path, Some(c), log)
    ensures Waiting(path, Some(c), EnvNext(log, Append(bytes))) >= Waiting(path, Some(c), log)
  {
    hide Accounted, Done, Waiting, EnvNext;
    AppendKeepsAccount(path, log, c, seen, bytes);
    DoneIsSeen(path, log, c, seen);
    DoneIsSeen(path, EnvNext(log, Append(bytes)), c, seen);
    AppendAddsWaiting(path, log, c, bytes);
  }

  /** The positions and the turn are as they were; there may be more lines waiting. */
  predicate Unmoved(cfg: Config, w: World, w': World)
  {
    && Parity(w') == Parity(w)
    && Done(cfg.nextcloudLog, AppCursor(w'), w'.app) == Done(cfg.nextcloudLog, AppCursor(w), w.app)
    && Done(cfg.ncAuditLog, AuditCursor(w'), w'.audit) == Done(cfg.ncAuditLog, AuditCursor(w), w.audit)
    && AppWaiting(cfg, w') >= AppWaiting(cfg, w) && AuditWaiting(cfg, w') >= AuditWaiting(cfg, w)
  }

  lemma UnmovedTwice(cfg: Config, w: World, w1: World, w2: World)
    requires Unmoved(cfg, w, w1) && Unmoved(cfg, w1, w2)
    ensures Unmoved(cfg, w, w2)
  {
    hide Done, AppWaiting, AuditWaiting, Parity;
  }

  lemma QuietStepLeavesDone(k: Codec, cfg: Config, w: World, seenApp: seq<Item>, seenAudit: seq<Item>, s: Step)
    requires Running(k, cfg, w, seenApp, seenAudit) && QuietStep(k, cfg, w, s)
    ensures var w' := Next(k, cfg, w, s);
            Unmoved(cfg, w, w') && AppCursor(w') == AppCursor(w) && AuditCursor(w') == AuditCursor(w)
  {
    hide Waiting, AllLines, Accounted, MarkOk;
    match s
    case OnApp(e) => AppendLeavesDone(cfg.nextcloudLog, w.app, AppCursor(w).value, seenApp, e.bytes);
    case OnAudit(e) => AppendLeavesDone(cfg.ncAuditLog, w.audit, AuditCursor(w).value, seenAudit, e.bytes);
    case Round(snap, f) => RoundKeepsLedger(k, cfg, snap, w.dir, f);
  }

  /** While nothing succeeds and nothing rotates, the positions and the turn stay. */
  lemma {:induction false} QuietLeavesDone(k: Codec, cfg: Config, w: World, seenApp: seq<Item>, seenAudit: seq<Item>,
                                           steps: seq<Step>)
    returns (seenApp': seq<Item>, seenAudit': seq<Item>)
    requires Running(k, cfg, w, seenApp, seenAudit) && Quiet(k, cfg, w, steps)
    ensures var w' := Run(k, cfg, w, steps); Running(k, cfg, w', seenApp', seenAudit') && Unmoved(cfg, w, w')
    decreases |steps|
  {
    seenApp', seenAudit' := seenApp, seenAudit;
    if steps != [] {
      var s := steps[0];
      var w1 := Next(k, cfg, w, s);
      hide Next, Done, AppWaiting, AuditWaiting, AppOk, AuditOk, MarkOk, StepOk, Collect, Unmoved;
      seenApp', seenAudit' := StepKeepsBooks(k, cfg, w, seenApp, seenAudit, s);
      QuietStepLeavesDone(k, cfg, w, seenApp, seenAudit, s);
      assert Running(k, cfg, w1, seenApp', seenAudit');
      hide Running;
      seenApp', seenAudit' := QuietLeavesDone(k, cfg, w1, seenApp', seenAudit', steps[1..]);
      UnmovedTwice(cfg, w, w1, Run(k, cfg, w1, steps[1..]));
    }
  }

  /** No starvation: of any two successive successful rounds without a rotation between them,
      every source that has a line waiting gets past at least one. */
  lemma NoStarvation(k: Codec, cfg: Config, w: World, seenApp: seq<Item>, seenAudit: seq<Item>,
                     first: Step, between: seq<Step>, second: Step)
    requires Running(k, cfg, w, seenApp, seenAudit) && Succeeds(k, cfg, w, first)
    requires Quiet(k, cfg, Next(k, cfg, w, first), between)
    requires Succeeds(k, cfg, Run(k, cfg, Next(k, cfg, w, first), between), second)
    ensures var w' := Next(k, cfg, Run(k, cfg, Next(k, cfg, w, first), between), second);
            && (AppWaiting(cfg, w) > 0 ==>
                  Done(cfg.nextcloudLog, AppCursor(w'), w'.app) > Done(cfg.nextcloudLog, AppCursor(w), w.app))
            && (AuditWaiting(cfg, w) > 0 ==>
                  Done(cfg.ncAuditLog, AuditCursor(w'), w'.audit) > Done(cfg.ncAuditLog, AuditCursor(w), w.audit))
  {
    hide Next, Run, Waiting, AllLines, Running, Succeeds, Quiet;
    var w1 := Next(k, cfg, w, first);
    var w2 := Run(k, cfg, w1, between);
    var seenApp1, seenAudit1 := RoundMoves(k, cfg, w, seenApp, seenAudit, first);
    var seenApp2, seenAudit2 := QuietLeavesDone(k, cfg, w1, seenApp1, seenAudit1, between);
    var seenApp3, seenAudit3 := RoundMoves(k, cfg, w2, seenApp2, seenAudit2, second);
    SeenKeepsAllLines(w.app);
    SeenKeepsAllLines(w2.app);
    SeenKeepsAllLines(w.audit);
    SeenKeepsAllLines(w2.audit);
  }

  lemma SeenKeepsAllLines(log: Log)
    ensures AllLines(log.(rotated := false)) == AllLines(log)
  {
    ClosedLinesFrame(log, log.(rotated := false), |log.done|);
  }
}
