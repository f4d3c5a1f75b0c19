/** The local copy `nextcloud.jsonl` against the events returned: an append that a failing
    round left behind is undone before the next one, so nothing is written twice. */
module NextcloudLedger {
  import opened Basics
  import opened Lines
  import opened NextcloudModel
  import opened NextcloudState

  /** What the local copy is worth: its content once the undo mark has been honoured. */
  function Settled(d: Dir): Bytes
  {
    Content(Recover(d.jsonl, LoadState(d.stateFile).appending))
  }

  /** A mark on disk describes a beginning of the local copy. */
  predicate MarkOk(d: Dir)
  {
    var m := LoadState(d.stateFile).appending;
    m.Some? && d.jsonl.Some? ==>
      m.value.size <= |d.jsonl.value| && m.value.head == Fingerprint(d.jsonl.value[..m.value.size])
  }

  /** The events a round reads, when it gets that far. */
  function EventsRead(k: Codec, cfg: Config, snap: Snapshot, d: Dir): seq<NCEvent>
  {
    match ReadBoth(k, cfg, snap, LoadState(d.stateFile).(appending := None))
    case None => []
    case Some(reading) => reading.Result().events
  }

  predicate Writes(k: Codec, cfg: Config, snap: Snapshot, d: Dir, f: Faults)
  {
    && Installed(cfg, snap) && !f.mkdir && !f.recover && !f.read
    && EventsRead(k, cfg, snap, d) != [] && !f.mark && !f.pendingSave
  }

  /** This round renames the local copy to `.1` because it has grown too large. */
  predicate Rotates(k: Codec, cfg: Config, snap: Snapshot, d: Dir, f: Faults)
  {
    && Writes(k, cfg, snap, d, f) && f.append.NoFault? && !f.rotate
    && |Settled(d) + JsonlBytes(k, EventsRead(k, cfg, snap, d))| > MAX_JSONL_BYTES
  }

  function Returned(o: Outcome): seq<NCEvent>
  {
    if o.Collected? then o.result.events else []
  }

  /** Recovery is idempotent. */
  lemma RecoverTwice(jsonl: Option<Bytes>, m: Option<Mark>)
    ensures Recover(Recover(jsonl, m), m) == Recover(jsonl, m)
  {
  }

  lemma FingerprintOfExtension(a: Bytes, b: Bytes)
    ensures HeadMatches(Fingerprint(a), a + b)
    ensures Fingerprint((a + b)[..|a|]) == Fingerprint(a)
  {
    assert (a + b)[..|a|] == a;
  }

  lemma WellFormedSource(k: Codec, source: string, c: Option<Cursor>, path: string, snap: Snapshot, m: Meter)
    requires path != "" && (c.Some? ==> WellFormedCursor(c.value))
    ensures var r := ReadSource(k, source, c, path, snap, m);
            r.Some? ==> WellFormedCursor(r.value.cursor)
  {
  }

  lemma WellFormedPair(k: Codec, snap: Snapshot, m: Meter, name1: string, path1: string, c1: Option<Cursor>,
                       name2: string, path2: string, c2: Option<Cursor>)
    requires path1 != "" && (c1.Some? ==> WellFormedCursor(c1.value))
    requires path2 != "" && (c2.Some? ==> WellFormedCursor(c2.value))
    ensures var r := ReadPair(k, snap, m, name1, path1, c1, name2, path2, c2);
            r.Some? ==> WellFormedCursor(r.value.0.cursor) && WellFormedCursor(r.value.1.cursor)
  {
    WellFormedSource(k, name1, c1, path1, snap, WithQuota(m, 2));
    var r1 := ReadSource(k, name1, c1, path1, snap, WithQuota(m, 2));
    if r1.Some? {
      WellFormedSource(k, name2, c2, path2, snap, WithQuota(r1.value.meter, 1));
    }
  }

  lemma WellFormedReading(k: Codec, cfg: Config, snap: Snapshot, st: State)
    requires cfg.nextcloudLog != "" && cfg.ncAuditLog != "" && WellFormed(st)
    ensures var r := ReadBoth(k, cfg, snap, st);
            r.Some? ==> WellFormed(r.value.NextState(st.round))
  {
    var m := NewMeter(k, cfg);
    WellFormedPair(k, snap, m, "audit", cfg.ncAuditLog, st.audit, "app", cfg.nextcloudLog, st.app);
    WellFormedPair(k, snap, m, "app", cfg.nextcloudLog, st.app, "audit", cfg.ncAuditLog, st.audit);
  }

  /** The append step by step: whatever fails, the mark on disk lets the next round get back
      to what the local copy was worth before. */
  lemma WriteEventsIsUndoable(k: Codec, before: State, d: Dir, evs: seq<NCEvent>, f: Faults)
    requires WellFormed(before) && before.appending.None?
    requires LoadState(d.stateFile).appending.None? || MarkOk(d)
    requires Recover(d.jsonl, LoadState(d.stateFile).appending) == d.jsonl
    requires LoadState(d.stateFile).(appending := None) == before
    ensures var (d', ok) := WriteEvents(k, before, d, evs, f);
            var written := Content(d.jsonl) + JsonlBytes(k, evs);
            var rotated := !f.mark && !f.pendingSave && f.append.NoFault? && !f.rotate && |written| > MAX_JSONL_BYTES;
            && MarkOk(d')
            && LoadState(d'.stateFile).(appending := None) == before
            && (rotated ==> ok && d'.jsonl.None? && d'.jsonlOld == Some(written))
            && (!rotated ==> Settled(d') == Content(d.jsonl) && d'.jsonlOld == d.jsonlOld)
            && (ok && !rotated ==> d'.jsonl == Some(written))
  {
    var mark := NewMark(d.jsonl);
    var pending := before.(appending := Some(mark));
    StateRoundTrip(pending);
    var bytes := JsonlBytes(k, evs);
    FingerprintOfExtension(Content(d.jsonl), bytes);
    if f.append.WrittenOnly? {
      FingerprintOfExtension(Content(d.jsonl), bytes[..if f.append.bytes < |bytes| then f.append.bytes else |bytes|]);
    }
  }

  lemma RecoveredStart(d: Dir)
    requires MarkOk(d)
    ensures var st := LoadState(d.stateFile);
            var d0 := d.(jsonl := Recover(d.jsonl, st.appending));
            && MarkOk(d0)
            && Content(d0.jsonl) == Settled(d) == Settled(d0)
            && Recover(d0.jsonl, st.appending) == d0.jsonl
  {
    var st := LoadState(d.stateFile);
    RecoverTwice(d.jsonl, st.appending);
  }

  /** What a round may do to the files, given the events it read and whether it renamed the
      local copy. A round that does not succeed moves no position, and the local copy gains
      exactly the returned events - unless it was renamed in a round that then fails, the
      one case that leaves events written but not returned. */
  predicate LedgerStep(k: Codec, d: Dir, d': Dir, o: Outcome, evs: seq<NCEvent>, rotates: bool)
  {
    && MarkOk(d')
    && (!o.Collected? ==> LoadState(d'.stateFile).(appending := None) == LoadState(d.stateFile).(appending := None))
    && (o.Collected? ==> LoadState(d'.stateFile).appending.None?)
    && if rotates then
         Settled(d') == []
         && d'.jsonlOld == Some(Settled(d) + JsonlBytes(k, evs))
         && (o.Collected? ==> Returned(o) == evs)
       else
         Settled(d') == Settled(d) + JsonlBytes(k, Returned(o)) && d'.jsonlOld == d.jsonlOld
  }

  lemma FinishKeepsLedger(k: Codec, before: State, d: Dir, reading: Reading, f: Faults)
    requires WellFormed(before) && WellFormed(reading.NextState(before.round))
    requires MarkOk(d)
    requires Recover(d.jsonl, LoadState(d.stateFile).appending) == d.jsonl
    requires LoadState(d.stateFile).(appending := None) == before
    ensures var (d', o) := Finish(k, before, d, reading, f);
            var evs := reading.Result().events;
            var rotates := evs != [] && !f.mark && !f.pendingSave && f.append.NoFault? && !f.rotate
                           && |Settled(d) + JsonlBytes(k, evs)| > MAX_JSONL_BYTES;
            LedgerStep(k, d, d', o, evs, rotates)
  {
    var next := reading.NextState(before.round);
    StateRoundTrip(next);
    assert next.appending.None?;
    ConcatEmpty(Settled(d));
    var evs := reading.Result().events;
    if evs != [] {
      WriteEventsIsUndoable(k, before, d, evs, f);
    }
  }

  /** A round that stops before it writes only carries out the recovery. */
  lemma StoppedRoundKeepsLedger(k: Codec, cfg: Config, snap: Snapshot, d: Dir, f: Faults)
    requires MarkOk(d)
    requires !Installed(cfg, snap) || f.mkdir || f.recover || f.read
             || ReadBoth(k, cfg, snap, LoadState(d.stateFile).(appending := None)).None?
    ensures var (d', o) := Collect(k, cfg, snap, d, f);
            LedgerStep(k, d, d', o, EventsRead(k, cfg, snap, d), Rotates(k, cfg, snap, d, f))
  {
    RecoveredStart(d);
    ConcatEmpty(Settled(d));
    assert !Rotates(k, cfg, snap, d, f);
    var (d', o) := Collect(k, cfg, snap, d, f);
    assert Returned(o) == [] && JsonlBytes(k, []) == [];
    assert d'.stateFile == d.stateFile && d'.jsonlOld == d.jsonlOld;
  }

  /** One round, whatever fails in it. */
  lemma RoundKeepsLedger(k: Codec, cfg: Config, snap: Snapshot, d: Dir, f: Faults)
    requires cfg.nextcloudLog != "" && cfg.ncAuditLog != ""
    requires MarkOk(d)
    ensures var (d', o) := Collect(k, cfg, snap, d, f);
            LedgerStep(k, d, d', o, EventsRead(k, cfg, snap, d), Rotates(k, cfg, snap, d, f))
  {
    var st := LoadState(d.stateFile);
    var before := st.(appending := None);
    var r := ReadBoth(k, cfg, snap, before);
    if !Installed(cfg, snap) || f.mkdir || f.recover || f.read || r.None? {
      StoppedRoundKeepsLedger(k, cfg, snap, d, f);
    } else {
      RecoveredStart(d);
      var d0 := d.(jsonl := Recover(d.jsonl, st.appending));
      WellFormedReading(k, cfg, snap, before);
      FinishKeepsLedger(k, before, d0, r.value, f);
      assert Collect(k, cfg, snap, d, f) == Finish(k, before, d0, r.value, f);
    }
  }

  /** What leaves the local copy in a round, into `.1`. */
  function RenamedOut(k: Codec, cfg: Config, snap: Snapshot, d: Dir, f: Faults): Bytes
  {
    if Rotates(k, cfg, snap, d, f) then Content(Collect(k, cfg, snap, d, f).0.jsonlOld) else []
  }

  /** A failing round leaves the account of written events as it was if and only if it did
      not rename the local copy: after a rename, a failing final save makes the next round
      read, and write, the same events again. */
  lemma FailingRoundIsCleanIffNotRotated(k: Codec, cfg: Config, snap: Snapshot, d: Dir, f: Faults)
    requires cfg.nextcloudLog != "" && cfg.ncAuditLog != ""
    requires MarkOk(d) && !Collect(k, cfg, snap, d, f).1.Collected?
    ensures var d' := Collect(k, cfg, snap, d, f).0;
            && (RenamedOut(k, cfg, snap, d, f) + Settled(d') == Settled(d) <==> !Rotates(k, cfg, snap, d, f))
            && EventsRead(k, cfg, snap, d') == EventsRead(k, cfg, snap, d)
  {
    RoundKeepsLedger(k, cfg, snap, d, f);
    ConcatEmpty(Settled(d));
    if Rotates(k, cfg, snap, d, f) {
      assert |JsonlBytes(k, EventsRead(k, cfg, snap, d))| > 0;
    }
  }

  // ----- a failing round that repeats itself -----

  const NO_FAULTS := Faults(false, false, false, false, false, NoFault, false, false)

  /** Both sources have been seen empty, and nothing has been read since. */
  function SeenEmpty(cfg: Config, inode: nat): State
  {
    State(Some(Cursor(cfg.nextcloudLog, 0, inode, [], None)), Some(Cursor(cfg.ncAuditLog, 0, 0, [], None)), 0, None)
  }

  predicate OneEvent(k: Codec, cfg: Config, line: Bytes)
  {
    && cfg.nextcloudLog != "" && cfg.ncAuditLog != "" && cfg.nextcloudLog != cfg.ncAuditLog
    && HasLine(line, 0, false) && LineEnd(line, 0) == |line|
    && ParseLine(k, line, "app").Some? && Cost(k, ParseLine(k, line, "app").value) <= NewMeter(k, cfg).max
  }

  /** The one line written to nextcloud.log since then is read. */
  lemma OneEventIsRead(k: Codec, cfg: Config, inode: nat, line: Bytes)
    requires OneEvent(k, cfg, line)
    ensures var r := ReadBoth(k, cfg, map[cfg.nextcloudLog := Regular(inode, line)], SeenEmpty(cfg, inode));
            r.Some? && r.value.Result().events == [ParseLine(k, line, "app").value]
  {
    var snap := map[cfg.nextcloudLog := Regular(inode, line)];
    var c, m := Cursor(cfg.nextcloudLog, 0, inode, [], None), WithQuota(NewMeter(k, cfg), 2);
    var ev := ParseLine(k, line, "app").value;
    assert line[0..|line|] == line && !HasLine(line, |line|, false);
    assert Takes(m, Cost(k, ev)) && m.max == NewMeter(k, cfg).max;
    var m' := Charge(m, Cost(k, ev));
    assert Scan(k, "app", line, |line|, false, m') == ScanResult(|line|, false, [], 0, m');
    assert LineStep(k, "app", line, m) == Passed([ev], 0, m');
    hide NewMeter, ParseLine, Fingerprint;
    var r := Scan(k, "app", line, 0, false, m);
    assert r.events == [ev];
    var r1 := ReadSource(k, "app", Some(c), cfg.nextcloudLog, snap, m);
    assert r1.Some? && r1.value.events == [ev];
    hide Scan;
    var r2 := ReadSource(k, "audit", SeenEmpty(cfg, inode).audit, cfg.ncAuditLog, snap, WithQuota(r1.value.meter, 1));
    assert r2.Some? && r2.value.events == [];
    ConcatEmpty([ev]);
  }

  /** The run that the condition rules out: one event makes the local copy too large, the rename
      goes through and the final save fails. The round returns nothing; the next one returns
      the event, and writes it a second time: it stands in `.1` and in the new local copy. */
  lemma RenamedRoundRepeats(k: Codec, cfg: Config, inode: nat, line: Bytes, old_: Bytes)
    requires OneEvent(k, cfg, line)
    requires |old_| <= MAX_JSONL_BYTES < |old_| + Cost(k, ParseLine(k, line, "app").value)
    ensures var evs := [ParseLine(k, line, "app").value];
            var snap := map[cfg.nextcloudLog := Regular(inode, line)];
            var d := Dir(SaveState(SeenEmpty(cfg, inode)), Some(old_), None);
            var (d1, o1) := Collect(k, cfg, snap, d, NO_FAULTS.(finalSave := true));
            var (d2, o2) := Collect(k, cfg, snap, d1, NO_FAULTS);
            && MarkOk(d) && o1.Failed? && o2.Collected? && o2.result.events == evs
            && d2.jsonlOld == Some(old_ + JsonlBytes(k, evs)) && d2.jsonl == Some(JsonlBytes(k, evs))
  {
    var evs := [ParseLine(k, line, "app").value];
    var snap := map[cfg.nextcloudLog := Regular(inode, line)];
    var before := SeenEmpty(cfg, inode);
    var d := Dir(SaveState(before), Some(old_), None);
    OneEventIsRead(k, cfg, inode, line);
    var reading := ReadBoth(k, cfg, snap, before).value;
    StateRoundTrip(before);
    var marked := before.(appending := Some(NewMark(Some(old_))));
    StateRoundTrip(marked);
    OneEventBytes(k, evs[0]);
    assert marked.(appending := None) == before;
    hide ReadBoth, LoadState, SaveState, JsonlBytes, ParseLine, NewMeter, SeenEmpty, NewMark;
    assert Collect(k, cfg, snap, d, NO_FAULTS.(finalSave := true))
        == Finish(k, before, d, reading, NO_FAULTS.(finalSave := true));
    var d1 := Dir(SaveState(marked), None, Some(old_ + JsonlBytes(k, evs)));
    assert Finish(k, before, d, reading, NO_FAULTS.(finalSave := true)) == (d1, Failed);
    assert Collect(k, cfg, snap, d1, NO_FAULTS) == Finish(k, before, d1, reading, NO_FAULTS);
    ConcatEmpty(JsonlBytes(k, evs));
  }

  lemma OneEventBytes(k: Codec, ev: NCEvent)
    ensures |JsonlBytes(k, [ev])| == Cost(k, ev)
  {
    assert JsonlBytes(k, [ev]) == k.encode(ev) + [NEWLINE] + JsonlBytes(k, []);
  }
}
