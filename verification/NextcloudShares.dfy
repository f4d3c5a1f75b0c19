/** How one report is shared between the two logs: how much a source may take, that it takes
    no less than it may, and what the result says about what was left out. */
module NextcloudShares {
  import opened Basics
  import opened Lines
  import opened NextcloudModel
  import opened NextcloudState
  import opened NextcloudSource
  import opened NextcloudLedger
  import opened NextcloudRuns
  import opened NextcloudBounds

  /** A source may return these events: they fit into what is left of the report, and more
      than one of them fit into the source's share, too. */
  predicate Fits(k: Codec, evs: seq<NCEvent>, m: Meter)
  {
    && TotalCost(k, evs) <= m.remaining && |evs| <= m.events
    && (|evs| > 1 ==> TotalCost(k, evs) <= m.share && |evs| <= m.quota)
  }

  /** The line holds an event that some report could carry, but this one not any more. */
  predicate Refused(k: Codec, source: string, line: Bytes, evs: seq<NCEvent>, m: Meter)
  {
    match Deliverable(k, source, m.max, line)
    case None => false
    case Some(ev) => !Fits(k, evs + [ev], m)
  }

  /** The meter after these events. */
  predicate Spent(k: Codec, m: Meter, evs: seq<NCEvent>, m': Meter)
  {
    && m.taken == 0 && m'.taken == |evs| && m'.max == m.max
    && m'.remaining + TotalCost(k, evs) == m.remaining && m'.events + |evs| == m.events
    && m'.share + TotalCost(k, evs) == m.share && m'.quota + |evs| == m.quota
  }

  lemma OneMore(k: Codec, evs: seq<NCEvent>, ev: NCEvent)
    ensures TotalCost(k, evs + [ev]) == TotalCost(k, evs) + Cost(k, ev)
  {
    TotalCostConcat(k, evs, [ev]);
    assert TotalCost(k, [ev]) == Cost(k, ev) + TotalCost(k, []);
  }

  lemma StepFits(k: Codec, source: string, line: Bytes, m: Meter, evs: seq<NCEvent>, m': Meter)
    requires Spent(k, m, evs, m') && Fits(k, evs, m)
    ensures match LineStep(k, source, line, m')
            case Blocked => Refused(k, source, line, evs, m)
            case Passed(more, _, m'') => Fits(k, evs + more, m) && Spent(k, m, evs + more, m'')
  {
    hide TotalCost;
    match ParseLine(k, line, source)
    case None => ConcatEmpty(evs);
    case Some(ev) =>
      OneMore(k, evs, ev);
      ConcatEmpty(evs);
  }

  /** A scan takes what fits and stops at the first event that does not. */
  lemma {:induction false} ScanFits(k: Codec, source: string, s: Bytes, i: nat, final: bool, m: Meter,
                                    evs: seq<NCEvent>, m': Meter)
    requires Spent(k, m, evs, m') && Fits(k, evs, m)
    ensures var r := Scan(k, source, s, i, final, m');
            && Fits(k, evs + r.events, m) && Spent(k, m, evs + r.events, r.meter)
            && (r.more ==> HasLine(s, r.offset, final)
                           && Refused(k, source, s[r.offset..LineEnd(s, r.offset)], evs + r.events, m))
    decreases |s| - i
  {
    hide Fits, Spent, Refused;
    ConcatEmpty(evs);
    if HasLine(s, i, final) {
      var step := LineStep(k, source, s[i..LineEnd(s, i)], m');
      StepFits(k, source, s[i..LineEnd(s, i)], m, evs, m');
      hide LineStep;
      if step.Passed? {
        ScanFits(k, source, s, LineEnd(s, i), final, m, evs + step.events, step.meter);
        ConcatAssoc(evs, step.events, Scan(k, source, s, LineEnd(s, i), final, step.meter).events);
      }
    }
  }

  /** What a source returns fits, it says `truncated` exactly if lines are left, and then the
      first of them is refused. */
  predicate TakesItsShare(k: Codec, source: string, m: Meter, evs: seq<NCEvent>, truncated: bool, ahead: seq<Bytes>,
                          m': Meter)
  {
    && Fits(k, evs, m) && Spent(k, m, evs, m')
    && (truncated <==> ahead != [])
    && (truncated ==> Refused(k, source, ahead[0], evs, m))
  }

  lemma DrainCurrentShare(k: Codec, source: string, path: string, log: Log, c: Cursor, file: Option<File>, m: Meter,
                          evs: seq<NCEvent>, m': Meter)
    requires Spent(k, m, evs, m') && Fits(k, evs, m)
    requires Reconciled(path, log, c) && c.prev.None?
    requires file == if log.present then Some(Regular(log.inode, log.cur)) else None
    ensures var r := DrainCurrent(k, source, c, file, m');
            TakesItsShare(k, source, m, evs + r.events, r.truncated, LinesFrom(log.cur, r.cursor.offset, false),
                          r.meter)
  {
    hide Fits, Spent, Refused, Harvest;
    ConcatEmpty(evs);
    if log.present {
      ScanFits(k, source, log.cur, c.offset, false, m, evs, m');
      ScanConsumes(k, source, log.cur, c.offset, false, m');
    }
  }

  lemma DrainShare(k: Codec, source: string, path: string, log: Log, c: Cursor, snap: Snapshot, m: Meter)
    requires m.taken == 0
    requires Reconciled(path, log, c) && Shows(snap, path, log)
    ensures var r := Drain(k, source, c, snap, Lookup(snap, path), m);
            && Synced(path, log, r.cursor)
            && TakesItsShare(k, source, m, r.events, r.truncated, Pending(log, r.cursor), r.meter)
  {
    var _ := DrainAdvances(k, source, path, log, c, snap, m);
    var file := Lookup(snap, path);
    assert Spent(k, m, [], m) && Fits(k, [], m);
    if c.prev.None? {
      DrainCurrentShare(k, source, path, log, c, file, m, [], m);
      var r := DrainCurrent(k, source, c, file, m);
      ConcatEmpty(r.events);
      PendingWithoutPrev(log, r.cursor);
    } else {
      var p := c.prev.value;
      var r := Scan(k, source, LastDone(log), p.offset, true, m);
      ScanFits(k, source, LastDone(log), p.offset, true, m, [], m);
      ConcatEmpty(r.events);
      if !r.more {
        DrainCurrentShare(k, source, path, log, c.(prev := None), file, m, r.events, r.meter);
        PendingWithoutPrev(log, DrainCurrent(k, source, c.(prev := None), file, r.meter).cursor);
      }
    }
  }

  /** One source in one round: it returns events as long as they fit, and no longer. */
  lemma SourceShare(k: Codec, source: string, path: string, log: Log, c: Cursor, seen: seq<Item>, snap: Snapshot,
                    m: Meter)
    requires Accounted(path, log, c, seen) && (log.rotated ==> Detected(log, c)) && Shows(snap, path, log)
    requires m.taken == 0
    ensures var r := ReadSource(k, source, Some(c), path, snap, m);
            var log' := log.(rotated := false);
            && r.Some? && Synced(path, log', r.value.cursor)
            && TakesItsShare(k, source, m, r.value.events, r.value.truncated, Pending(log', r.value.cursor),
                             r.value.meter)
  {
    hide TakesItsShare;
    ReconcileResumes(path, log, c, snap);
    var c1 := Reconcile(c, Lookup(snap, path), Lookup(snap, path + ".1"));
    DrainShare(k, source, path, log.(rotated := false), c1, snap, m);
  }

  /** The lines `read` were the next ones; their events are returned, the oversize ones counted. */
  predicate Reads(k: Codec, source: string, max: nat, log: Log, c: Cursor, r: SourceResult, read: seq<Bytes>)
    requires c.prev.Some? || log.rotated ==> log.done != []
    requires r.cursor.prev.Some? ==> log.done != []
  {
    && Pending(log, c) == read + Pending(log.(rotated := false), r.cursor)
    && r.events == Harvest(k, source, max, read)
    && r.skipped == OversizeCount(k, source, max, read)
  }

  // ----- both sources of a round -----

  /** The source read first may use everything for its first event, and half for more. */
  function FirstShare(m: Meter): Meter { Meter(m.remaining, m.events, m.max, m.remaining / 2, m.events / 2, 0) }

  /** The source read second may use all that is left. */
  function SecondShare(k: Codec, m: Meter, first: seq<NCEvent>): Meter
    requires TotalCost(k, first) <= m.remaining && |first| <= m.events
  {
    var left, events := m.remaining - TotalCost(k, first), m.events - |first|;
    Meter(left, events, m.max, left, events, 0)
  }

  lemma SourceReads(k: Codec, source: string, path: string, log: Log, c: Cursor, seen: seq<Item>, snap: Snapshot,
                    m: Meter)
    returns (read: seq<Bytes>)
    requires Accounted(path, log, c, seen) && (log.rotated ==> Detected(log, c)) && Shows(snap, path, log)
    requires m.taken == 0
    ensures var r := ReadSource(k, source, Some(c), path, snap, m);
            var log' := log.(rotated := false);
            && r.Some? && Synced(path, log', r.value.cursor)
            && TakesItsShare(k, source, m, r.value.events, r.value.truncated, Pending(log', r.value.cursor),
                             r.value.meter)
            && Reads(k, source, m.max, log, c, r.value, read)
  {
    hide ReadSource, Shows, Detected, Harvest, OversizeCount, TakesItsShare, Pending;
    SourceShare(k, source, path, log, c, seen, snap, m);
    read := RoundKeepsAccount(k, source, path, log, c, seen, snap, m);
  }

  lemma PairShares(k: Codec, snap: Snapshot, m: Meter,
                   s1: string, path1: string, c1: Cursor, log1: Log, seen1: seq<Item>,
                   s2: string, path2: string, c2: Cursor, log2: Log, seen2: seq<Item>)
    returns (read1: seq<Bytes>, read2: seq<Bytes>)
    requires Accounted(path1, log1, c1, seen1) && Shows(snap, path1, log1) && (log1.rotated ==> Detected(log1, c1))
    requires Accounted(path2, log2, c2, seen2) && Shows(snap, path2, log2) && (log2.rotated ==> Detected(log2, c2))
    ensures var r := ReadPair(k, snap, m, s1, path1, Some(c1), s2, path2, Some(c2));
            && r.Some?
            && var (a, b) := r.value;
               var log1', log2' := log1.(rotated := false), log2.(rotated := false);
               && Synced(path1, log1', a.cursor) && Synced(path2, log2', b.cursor)
               && Reads(k, s1, m.max, log1, c1, a, read1) && Reads(k, s2, m.max, log2, c2, b, read2)
               && TakesItsShare(k, s1, FirstShare(m), a.events, a.truncated, Pending(log1', a.cursor), a.meter)
               && TotalCost(k, a.events) <= m.remaining && |a.events| <= m.events
               && TakesItsShare(k, s2, SecondShare(k, m, a.events), b.events, b.truncated, Pending(log2', b.cursor),
                                b.meter)
  {
    hide ReadSource, Shows, Accounted, Detected, Pending, Synced, Reads, Refused;
    read1 := SourceReads(k, s1, path1, log1, c1, seen1, snap, WithQuota(m, 2));
    var a := ReadSource(k, s1, Some(c1), path1, snap, WithQuota(m, 2)).value;
    read2 := SourceReads(k, s2, path2, log2, c2, seen2, snap, WithQuota(a.meter, 1));
    assert WithQuota(m, 2) == FirstShare(m);
    assert WithQuota(a.meter, 1) == SecondShare(k, m, a.events);
  }

  // ----- a whole round -----

  /** A report holds 512 KiB and 1000 events; the envelope and the path come off first. */
  lemma BudgetIs(k: Codec, cfg: Config)
    ensures var m := NewMeter(k, cfg);
            && m.events == 1000 && m.max == m.remaining
            && m.remaining == if cfg.pathJson <= 524288 - 98 then 524288 - 98 - cfg.pathJson else 0
  {
    EnvelopeIs(k, cfg);
  }

  /** `first` and `second` are what the two sources return, `ahead1` and `ahead2` what they leave. */
  predicate Shared(k: Codec, budget: nat, s1: string, first: seq<NCEvent>, ahead1: seq<Bytes>,
                   s2: string, second: seq<NCEvent>, ahead2: seq<Bytes>)
  {
    && (|first| > 1 ==> TotalCost(k, first) <= budget / 2 && |first| <= 500)
    && TotalCost(k, first) + TotalCost(k, second) <= budget && |first| + |second| <= 1000
    && (ahead1 != [] ==> StopsFirst(k, budget, s1, first, ahead1[0]))
    && (ahead2 != [] ==> StopsSecond(k, budget, s2, first, second, ahead2[0]))
  }

  /** The first source stops at an event with which it would use more than the budget or, unless
      it would be its only one, more than half of it. */
  predicate StopsFirst(k: Codec, budget: nat, source: string, first: seq<NCEvent>, line: Bytes)
  {
    match Deliverable(k, source, budget, line)
    case None => false
    case Some(ev) =>
      var cost := TotalCost(k, first) + Cost(k, ev);
      cost > budget || (first != [] && (cost > budget / 2 || |first| >= 500))
  }

  /** The second one stops only when the report is full. */
  predicate StopsSecond(k: Codec, budget: nat, source: string, first: seq<NCEvent>, second: seq<NCEvent>, line: Bytes)
  {
    match Deliverable(k, source, budget, line)
    case None => false
    case Some(ev) =>
      TotalCost(k, first) + TotalCost(k, second) + Cost(k, ev) > budget || |first| + |second| >= 1000
  }

  /** The source read second is never left with nothing while its next event is no larger than
      half of the budget, unless the other one's only event took more than its half. */
  lemma SecondIsServed(k: Codec, budget: nat, s1: string, first: seq<NCEvent>, ahead1: seq<Bytes>,
                       s2: string, second: seq<NCEvent>, ahead2: seq<Bytes>)
    requires Shared(k, budget, s1, first, ahead1, s2, second, ahead2) && ahead2 != []
    requires var next := Deliverable(k, s2, budget, ahead2[0]);
             next.Some? ==> Cost(k, next.value) <= budget - budget / 2
    requires |first| == 1 ==> TotalCost(k, first) <= budget / 2
    ensures second != []
  {
    hide Deliverable, Cost;
  }

  lemma SharesAreShared(k: Codec, m: Meter, s1: string, first: seq<NCEvent>, more1: bool, ahead1: seq<Bytes>, m1: Meter,
                        s2: string, second: seq<NCEvent>, more2: bool, ahead2: seq<Bytes>, m2: Meter)
    requires m.max == m.remaining && m.events == 1000
    requires TakesItsShare(k, s1, FirstShare(m), first, more1, ahead1, m1)
    requires TotalCost(k, first) <= m.remaining && |first| <= m.events
    requires TakesItsShare(k, s2, SecondShare(k, m, first), second, more2, ahead2, m2)
    ensures Shared(k, m.max, s1, first, ahead1, s2, second, ahead2)
    ensures (more1 <==> ahead1 != []) && (more2 <==> ahead2 != [])
  {
    forall evs, ev
      ensures TotalCost(k, evs + [ev]) == TotalCost(k, evs) + Cost(k, ev)
    {
      OneMore(k, evs, ev);
    }
    hide TotalCost, Cost, Deliverable;
  }

  /** What a successful round returned, source by source, and what it left. */
  datatype Shares = Shares(app: seq<NCEvent>, audit: seq<NCEvent>, truncated: bool, skipped: nat,
                           appAhead: seq<Bytes>, auditAhead: seq<Bytes>)

  predicate AppFirst(k: Codec, budget: nat, s: Shares)
  {
    Shared(k, budget, "app", s.app, s.appAhead, "audit", s.audit, s.auditAhead)
  }

  predicate AuditFirst(k: Codec, budget: nat, s: Shares)
  {
    Shared(k, budget, "audit", s.audit, s.auditAhead, "app", s.app, s.appAhead)
  }

  lemma ReadBothShares(k: Codec, cfg: Config, w: World, seenApp: seq<Item>, seenAudit: seq<Item>, s: Step)
    returns (readApp: seq<Bytes>, readAudit: seq<Bytes>)
    requires Running(k, cfg, w, seenApp, seenAudit) && Succeeds(k, cfg, w, s)
    ensures var r := ReadBoth(k, cfg, s.snap, LoadState(w.dir.stateFile).(appending := None));
            var app, audit := w.app.(rotated := false), w.audit.(rotated := false);
            && r.Some?
            && var (a, b) := (r.value.app, r.value.audit);
               && Synced(cfg.nextcloudLog, app, a.cursor) && Synced(cfg.ncAuditLog, audit, b.cursor)
               && var budget := NewMeter(k, cfg).remaining;
                  var sh := Shares(a.events, b.events, a.truncated || b.truncated, a.skipped + b.skipped,
                                   Pending(app, a.cursor), Pending(audit, b.cursor));
                  && (Parity(w) == 0 ==> AppFirst(k, budget, sh)) && (Parity(w) == 1 ==> AuditFirst(k, budget, sh))
                  && (sh.truncated <==> sh.appAhead != [] || sh.auditAhead != [])
                  && Reads(k, "app", budget, w.app, AppCursor(w).value, a, readApp)
                  && Reads(k, "audit", budget, w.audit, AuditCursor(w).value, b, readAudit)
  {
    var st := LoadState(w.dir.stateFile).(appending := None);
    BudgetIs(k, cfg);
    var m := NewMeter(k, cfg);
    hide Shows, ReadPair, Accounted, Detected, Collect, NewMeter, Pending, TakesItsShare, Reads, Shared;
    if st.round % 2 == 1 {
      readAudit, readApp := PairShares(k, s.snap, m, "audit", cfg.ncAuditLog, st.audit.value, w.audit, seenAudit,
                                       "app", cfg.nextcloudLog, st.app.value, w.app, seenApp);
      var (b, a) := ReadPair(k, s.snap, m, "audit", cfg.ncAuditLog, st.audit, "app", cfg.nextcloudLog, st.app).value;
      SharesAreShared(k, m, "audit", b.events, b.truncated, Pending(w.audit.(rotated := false), b.cursor), b.meter,
                      "app", a.events, a.truncated, Pending(w.app.(rotated := false), a.cursor), a.meter);
    } else {
      readApp, readAudit := PairShares(k, s.snap, m, "app", cfg.nextcloudLog, st.app.value, w.app, seenApp,
                                       "audit", cfg.ncAuditLog, st.audit.value, w.audit, seenAudit);
      var (a, b) := ReadPair(k, s.snap, m, "app", cfg.nextcloudLog, st.app, "audit", cfg.ncAuditLog, st.audit).value;
      SharesAreShared(k, m, "app", a.events, a.truncated, Pending(w.app.(rotated := false), a.cursor), a.meter,
                      "audit", b.events, b.truncated, Pending(w.audit.(rotated := false), b.cursor), b.meter);
    }
  }

  lemma ReportsWhatItRead(k: Codec, cfg: Config, w: World, s: Step, r: Reading)
    requires ConfigOk(cfg) && Succeeds(k, cfg, w, s)
    requires ReadBoth(k, cfg, s.snap, LoadState(w.dir.stateFile).(appending := None)) == Some(r)
    requires forall ev :: ev in r.app.events ==> ev.source == "app"
    requires forall ev :: ev in r.audit.events ==> ev.source == "audit"
    ensures var res := Collect(k, cfg, s.snap, w.dir, s.faults).1.result;
            && res.events == r.app.events + r.audit.events && res.newEvents == |res.events|
            && r.app.events == OfSource(res.events, "app") && r.audit.events == OfSource(res.events, "audit")
            && res.truncated == (r.app.truncated || r.audit.truncated)
            && res.skippedOversize == r.app.skipped + r.audit.skipped
  {
    var res := Collect(k, cfg, s.snap, w.dir, s.faults).1.result;
    hide ReadBoth, Shows, Noticed, WriteEvents, Recover, LoadState;
    SplitReturned([], r.app.events, r.audit.events, "app");
    SplitReturned([], r.app.events, r.audit.events, "audit");
    ConcatEmpty(r.app.events);
    ConcatEmpty(r.audit.events);
    ConcatEmpty(res.events);
  }

  lemma WaitingAfter(k: Codec, cfg: Config, w: World, seenApp: seq<Item>, seenAudit: seq<Item>, s: Step, r: Reading)
    requires Running(k, cfg, w, seenApp, seenAudit) && Succeeds(k, cfg, w, s)
    requires ReadBoth(k, cfg, s.snap, LoadState(w.dir.stateFile).(appending := None)) == Some(r)
    requires Synced(cfg.nextcloudLog, w.app.(rotated := false), r.app.cursor)
    requires Synced(cfg.ncAuditLog, w.audit.(rotated := false), r.audit.cursor)
    ensures var w' := Next(k, cfg, w, s);
            && AppWaiting(cfg, w') == |Pending(w.app.(rotated := false), r.app.cursor)|
            && AuditWaiting(cfg, w') == |Pending(w.audit.(rotated := false), r.audit.cursor)|
  {
    SuccessState(k, cfg, w, seenApp, seenAudit, s);
    hide Pending, Next, ReadBoth, Running, Succeeds, AppCursor, AuditCursor;
  }

  lemma WaitingBefore(k: Codec, cfg: Config, w: World, seenApp: seq<Item>, seenAudit: seq<Item>)
    requires Running(k, cfg, w, seenApp, seenAudit)
    ensures var c := AppCursor(w);
            c.Some? && (c.value.prev.Some? || w.app.rotated ==> w.app.done != [])
            && AppWaiting(cfg, w) == |Pending(w.app, c.value)|
    ensures var c := AuditCursor(w);
            c.Some? && (c.value.prev.Some? || w.audit.rotated ==> w.audit.done != [])
            && AuditWaiting(cfg, w) == |Pending(w.audit, c.value)|
  {
    hide Pending, AllLines, AppCursor, AuditCursor;
  }

  /** A successful round shares the report fairly, and says the truth about it: nextcloud.log's
      events come first, `truncated` means exactly that lines are left, and the skipped events
      are the oversize ones among the lines read. */
  lemma RoundIsShared(k: Codec, cfg: Config, w: World, seenApp: seq<Item>, seenAudit: seq<Item>, s: Step)
    returns (readApp: seq<Bytes>, readAudit: seq<Bytes>, sh: Shares)
    requires Running(k, cfg, w, seenApp, seenAudit) && Succeeds(k, cfg, w, s)
    ensures var res := Collect(k, cfg, s.snap, w.dir, s.faults).1.result;
            && res.events == sh.app + sh.audit && res.newEvents == |res.events|
            && sh.app == OfSource(res.events, "app") && sh.audit == OfSource(res.events, "audit")
            && res.truncated == sh.truncated && res.skippedOversize == sh.skipped
    ensures sh.truncated <==> sh.appAhead != [] || sh.auditAhead != []
    ensures var budget := NewMeter(k, cfg).remaining;
            && (Parity(w) == 0 ==> AppFirst(k, budget, sh)) && (Parity(w) == 1 ==> AuditFirst(k, budget, sh))
            && sh.app == Harvest(k, "app", budget, readApp) && sh.audit == Harvest(k, "audit", budget, readAudit)
            && sh.skipped == OversizeCount(k, "app", budget, readApp) + OversizeCount(k, "audit", budget, readAudit)
    ensures var w' := Next(k, cfg, w, s);
            && AppWaiting(cfg, w') == |sh.appAhead| && AuditWaiting(cfg, w') == |sh.auditAhead|
            && |readApp| + |sh.appAhead| == AppWaiting(cfg, w)
            && |readAudit| + |sh.auditAhead| == AuditWaiting(cfg, w)
  {
    hide AppFirst, AuditFirst, Pending, Next, Collect, ReadBoth, NewMeter, LoadState, AppCursor, AuditCursor;
    hide AppWaiting, AuditWaiting, StepOk, LinesFrom, StopAt, OversizeCount, Harvest, OfSource, Parity;
    readApp, readAudit := ReadBothShares(k, cfg, w, seenApp, seenAudit, s);
    WaitingBefore(k, cfg, w, seenApp, seenAudit);
    assert ConfigOk(cfg);
    var r := ReadBoth(k, cfg, s.snap, LoadState(w.dir.stateFile).(appending := None)).value;
    var app, audit := w.app.(rotated := false), w.audit.(rotated := false);
    sh := Shares(r.app.events, r.audit.events, r.app.truncated || r.audit.truncated, r.app.skipped + r.audit.skipped,
                 Pending(app, r.app.cursor), Pending(audit, r.audit.cursor));
    hide Running, Succeeds, Synced;
    ReportsWhatItRead(k, cfg, w, s, r);
    WaitingAfter(k, cfg, w, seenApp, seenAudit, s, r);
  }
}
