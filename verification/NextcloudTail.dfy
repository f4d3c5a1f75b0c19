/** The Nextcloud log tailer as it runs: objects updated in place, loops over the
    file bytes. Every method is proved equal to its counterpart on values. */
module NextcloudTail {
  import opened Basics
  import opened Lines
  import opened NextcloudModel
  import opened NextcloudState

  class Budget {
    var remaining: nat
    var events: nat
    const max: nat

    constructor (k: Codec, cfg: Config)
      ensures this.remaining == max == NewMeter(k, cfg).remaining && this.events == MAX_RESULT_EVENTS
      ensures max == NewMeter(k, cfg).max
    {
      var n: int := MAX_RESULT_JSON_BYTES - EnvelopeSize(k, cfg) - |",\"events\":[]"|;
      if n < 0 {
        n := 0;
      }
      remaining, events, max := n, MAX_RESULT_EVENTS, n;
    }

    /** Accepts an event of this cost if it fits, and charges it. */
    method Take(cost: nat, q: Quota) returns (ok: bool)
      modifies this, q
      ensures ok == Takes(old(MeterOf(this, q)), cost)
      ensures MeterOf(this, q) == if ok then Charge(old(MeterOf(this, q)), cost) else old(MeterOf(this, q))
    {
      if cost > remaining || events == 0 {
        return false;
      }
      if q.taken > 0 && (cost > q.share || q.events <= 0) {
        return false;
      }
      remaining := remaining - cost;
      events := events - 1;
      q.share := q.share - cost;
      q.events := q.events - 1;
      q.taken := q.taken + 1;
      return true;
    }
  }

  class Quota {
    var share: int
    var events: int
    var taken: nat

    constructor (share: int, events: int)
      ensures this.share == share && this.events == events && taken == 0
    {
      this.share, this.events, taken := share, events, 0;
    }
  }

  function MeterOf(b: Budget, q: Quota): Meter
    reads b, q
  {
    Meter(b.remaining, b.events, b.max, q.share, q.events, q.taken)
  }

  /** The result under construction. */
  class Result {
    var newEvents: nat
    var events: seq<NCEvent>
    var truncated: bool
    var skippedOversize: nat

    constructor ()
      ensures View() == CollectResult(0, [], false, 0)
    {
      newEvents, events, truncated, skippedOversize := 0, [], false, 0;
    }

    function View(): CollectResult
      reads this
    {
      CollectResult(newEvents, events, truncated, skippedOversize)
    }
  }

  class FileState {
    var path: string
    var offset: nat
    var inode: nat
    var head: Bytes
    var prev: Option<PrevState>

    constructor (c: Cursor)
      ensures View() == c
    {
      path, offset, inode, head, prev := c.path, c.offset, c.inode, c.head, c.prev;
    }

    function View(): Cursor
      reads this
    {
      Cursor(path, offset, inode, head, prev)
    }
  }

  /** The last index of `b` in `s`, or -1. */
  function LastIndexByte(s: Bytes, b: Byte): (i: int)
    ensures -1 <= i < |s|
    ensures i >= 0 ==> s[i] == b
    ensures forall j :: i < j < |s| ==> s[j] != b
  {
    if s == [] then -1
    else if s[|s| - 1] == b then |s| - 1
    else LastIndexByte(s[..|s| - 1], b)
  }

  lemma {:induction false} LastLineEndUnique(s: Bytes, e: nat)
    requires e <= |s|
    requires e > 0 ==> s[e - 1] == NEWLINE
    requires forall j :: e <= j < |s| ==> s[j] != NEWLINE
    ensures e == LastLineEnd(s)
  {
    if e < |s| {
      LastLineEndUnique(s[..|s| - 1], e);
    }
  }

  const CHUNK: nat := 64 * 1024

  /** Scans the file backwards in chunks for the end of its last complete line. */
  method FindLastLineEnd(data: Bytes) returns (e: nat)
    ensures e == LastLineEnd(data)
  {
    var end := |data|;
    while end > 0
      invariant 0 <= end <= |data|
      invariant forall j :: end <= j < |data| ==> data[j] != NEWLINE
    {
      var start := if end < CHUNK then 0 else end - CHUNK;
      var buf := data[start..end];
      var i := LastIndexByte(buf, NEWLINE);
      if i >= 0 {
        forall j | start + i + 1 <= j < end
          ensures data[j] != NEWLINE
        {
          assert data[j] == buf[j - start];
        }
        LastLineEndUnique(data, start + i + 1);
        return start + i + 1;
      }
      forall j | start <= j < end
        ensures data[j] != NEWLINE
      {
        assert data[j] == buf[j - start];
      }
      end := start;
    }
    LastLineEndUnique(data, 0);
    return 0;
  }

  /** Handles one line: false when its event has to wait for a later round. */
  method TakeLine(k: Codec, line: Bytes, source: string, q: Quota, b: Budget, res: Result)
    returns (ok: bool, out: seq<NCEvent>)
    modifies q, b, res`truncated, res`skippedOversize
    ensures var step := LineStep(k, source, line, old(MeterOf(b, q)));
            && ok == step.Passed?
            && res.truncated == (old(res.truncated) || !ok)
            && if ok then
                 (out, MeterOf(b, q)) == (step.events, step.meter)
                 && res.skippedOversize == old(res.skippedOversize) + step.skipped
               else
                 MeterOf(b, q) == old(MeterOf(b, q)) && res.skippedOversize == old(res.skippedOversize)
  {
    ok, out := true, [];
    var ev := ParseLine(k, line, source);
    if ev.Some? {
      var cost := Cost(k, ev.value);
      if cost > b.max {
        res.skippedOversize := res.skippedOversize + 1;
      } else {
        ok := b.Take(cost, q);
        if ok {
          out := [ev.value];
        } else {
          res.truncated := true;
        }
      }
    }
  }

  /** How a reader fares at one line: none to read, no room for it, read, or read as the last one. */
  datatype Progress = AtEnd | NoRoom | Line | LastLine

  method ReadLine(k: Codec, data: Bytes, consumed: nat, final: bool, source: string, q: Quota, b: Budget, res: Result)
    returns (p: Progress, next: nat, out: seq<NCEvent>)
    modifies q, b, res`truncated, res`skippedOversize
    ensures p.AtEnd? <==> !HasLine(data, consumed, final)
    ensures !p.AtEnd? ==>
              var step := LineStep(k, source, data[consumed..LineEnd(data, consumed)], old(MeterOf(b, q)));
              if p.NoRoom? then step == Blocked
              else next == LineEnd(data, consumed)
                   && res.skippedOversize >= old(res.skippedOversize)
                   && step == Passed(out, res.skippedOversize - old(res.skippedOversize), MeterOf(b, q))
    ensures p.LastLine? ==> !HasLine(data, next, final)
    ensures p.AtEnd? || p.NoRoom? ==>
              next == consumed && MeterOf(b, q) == old(MeterOf(b, q)) && res.skippedOversize == old(res.skippedOversize)
    ensures res.truncated == (old(res.truncated) || p.NoRoom?)
  {
    next, out := consumed, [];
    var line := if consumed < |data| then data[consumed..LineEnd(data, consumed)] else [];
    var eof := line == [] || line[|line| - 1] != NEWLINE;
    if eof && (!final || line == []) {
      return AtEnd, next, out;
    }
    var ok, evs := TakeLine(k, line, source, q, b, res);
    if !ok {
      return NoRoom, next, out;
    }
    next := consumed + |line|;
    return if eof then LastLine else Line, next, evs;
  }

  /** Reads complete lines from `offset` on, as far as the budget goes. */
  method ReadFrom(k: Codec, data: Bytes, offset: nat, final: bool, source: string, q: Quota, b: Budget, res: Result)
    returns (off: nat, more: bool, out: seq<NCEvent>)
    modifies q, b, res`truncated, res`skippedOversize
    ensures var r := Scan(k, source, data, offset, final, old(MeterOf(b, q)));
            && off == r.offset && more == r.more && out == r.events && MeterOf(b, q) == r.meter
            && res.skippedOversize == old(res.skippedOversize) + r.skipped
    ensures res.truncated == (old(res.truncated) || more)
  {
    ghost var m0, skipped0 := MeterOf(b, q), res.skippedOversize;
    off, out := offset, [];
    ghost var whole := ScanFrom(k, source, data, offset, final, m0, [], 0);
    assert whole == Scan(k, source, data, offset, final, m0);
    while true
      invariant res.truncated == old(res.truncated)
      invariant res.skippedOversize >= skipped0
      invariant whole == ScanFrom(k, source, data, off, final, MeterOf(b, q), out, res.skippedOversize - skipped0)
      decreases |data| - off
    {
      ghost var m, skipped := MeterOf(b, q), res.skippedOversize - skipped0;
      var p, next, evs := ReadLine(k, data, off, final, source, q, b, res);
      if p.AtEnd? || p.NoRoom? {
        ScanStops(k, source, data, off, final, m, out, skipped);
        return off, p.NoRoom?, out;
      }
      ScanGoesOn(k, source, data, off, final, m, out, skipped, evs, res.skippedOversize - skipped0 - skipped,
                 MeterOf(b, q));
      off, out := next, out + evs;
      if p.LastLine? {
        ScanStops(k, source, data, off, final, MeterOf(b, q), out, res.skippedOversize - skipped0);
        return off, false, out;
      }
    }
  }

  method FindPrev(st: FileState, curInode: nat, snap: Snapshot) returns (p: Option<PrevState>)
    ensures p == var dot1 := Lookup(snap, st.path + ".1");
                 if dot1.Some? && dot1.value.Regular?
                     && PrevIsOldFile(st.View(), curInode, dot1.value.inode, dot1.value.data)
                 then Some(PrevState(st.path + ".1", st.offset, dot1.value.inode, st.head)) else None
  {
    var prevPath := st.path + ".1";
    p := None;
    if prevPath in snap && snap[prevPath].Regular? {
      if PrevIsOldFile(st.View(), curInode, snap[prevPath].inode, snap[prevPath].data) {
        p := Some(PrevState(prevPath, st.offset, snap[prevPath].inode, st.head));
      }
    }
  }

  method ReconcileInPlace(st: FileState, file: File, snap: Snapshot)
    requires file.Regular?
    modifies st
    ensures st.View() == Reconcile(old(st.View()), Some(file), Lookup(snap, old(st.path) + ".1"))
  {
    if Rotated(st.View(), file.inode, file.data) {
      st.prev := FindPrev(st, file.inode, snap);
      st.offset := 0;
      st.head := [];
    }
    st.inode := file.inode;
    if |st.head| < HEAD_FINGERPRINT_BYTES && |file.data| > |st.head| {
      st.head := Fingerprint(file.data);
    }
  }

  /** Reads the rest of `.1`, if it is still the file it was, and then the current file. */
  method DrainInPlace(st: FileState, path: string, source: string, k: Codec, snap: Snapshot, q: Quota, b: Budget,
                      res: Result)
    returns (out: seq<NCEvent>)
    requires path in snap ==> snap[path].Regular?
    modifies st, q, b, res`truncated, res`skippedOversize
    ensures var r := Drain(k, source, old(st.View()), snap, Lookup(snap, path), old(MeterOf(b, q)));
            && (st.View(), out, MeterOf(b, q)) == (r.cursor, r.events, r.meter)
            && res.skippedOversize == old(res.skippedOversize) + r.skipped
            && res.truncated == (old(res.truncated) || r.truncated)
  {
    hide Scan;
    out := [];
    if st.prev.Some? {
      var p := st.prev.value;
      if !PrevValid(p, Lookup(snap, p.path)) {
        st.prev := None;
      } else {
        var off, more, evs := ReadFrom(k, snap[p.path].data, p.offset, true, source, q, b, res);
        out := evs;
        if more {
          st.prev := Some(p.(offset := off));
          return;
        }
        st.prev := None;
      }
    }
    if path in snap {
      var off, _, evs := ReadFrom(k, snap[path].data, st.offset, false, source, q, b, res);
      ConcatEmpty(evs);
      out := out + evs;
      st.offset := off;
    } else {
      ConcatEmpty(out);
    }
  }

  /** Reads one source from its recorded position and moves the position. */
  method ReadSourceFile(st: FileState?, path: string, source: string, k: Codec, snap: Snapshot, q: Quota, b: Budget,
                        res: Result)
    returns (ns: FileState?, ok: bool, out: seq<NCEvent>)
    modifies st, q, b, res`truncated, res`skippedOversize
    ensures var r := ReadSource(k, source, old(if st == null then None else Some(st.View())), path, snap,
                                old(MeterOf(b, q)));
            && ok == r.Some?
            && (ok ==> ns != null && (ns == st || fresh(ns))
                       && (ns.View(), out, MeterOf(b, q)) == (r.value.cursor, r.value.events, r.value.meter)
                       && res.skippedOversize == old(res.skippedOversize) + r.value.skipped
                       && res.truncated == (old(res.truncated) || r.value.truncated))
  {
    hide Drain, Fingerprint, LastLineEnd;
    out := [];
    if path in snap && snap[path].Directory? {
      return null, false, out;
    }
    if st == null || st.path != path {
      var c := Cursor(path, 0, 0, [], None);
      if path in snap {
        var off := FindLastLineEnd(snap[path].data);
        c := Cursor(path, off, snap[path].inode, Fingerprint(snap[path].data), None);
      }
      ns := new FileState(c);
      return ns, true, out;
    }
    if path in snap {
      ReconcileInPlace(st, snap[path], snap);
    }
    out := DrainInPlace(st, path, source, k, snap, q, b, res);
    return st, true, out;
  }

  /** The collector with its files: state, local jsonl and the renamed older jsonl. */
  class Collector {
    var stateFile: StateFile
    var jsonl: Option<Bytes>
    var jsonlOld: Option<Bytes>

    function View(): Dir
      reads this
    {
      Dir(stateFile, jsonl, jsonlOld)
    }

    /** Reads two sources one after the other, with half of the budget as the first one's quota. */
    method ReadInOrder(k: Codec, snap: Snapshot, b: Budget, res: Result,
                       name1: string, path1: string, c1: Option<Cursor>,
                       name2: string, path2: string, c2: Option<Cursor>)
      returns (ok: bool, n1: Cursor, out1: seq<NCEvent>, n2: Cursor, out2: seq<NCEvent>)
      modifies b, res`truncated, res`skippedOversize
      ensures var r := ReadPair(k, snap, old(Meter(b.remaining, b.events, b.max, 0, 0, 0)), name1, path1, c1, name2,
                                path2, c2);
              && ok == r.Some?
              && (ok ==> n1 == r.value.0.cursor && out1 == r.value.0.events
                         && n2 == r.value.1.cursor && out2 == r.value.1.events
                         && res.skippedOversize == old(res.skippedOversize) + r.value.0.skipped + r.value.1.skipped
                         && res.truncated == (old(res.truncated) || r.value.0.truncated || r.value.1.truncated))
    {
      n1, out1, n2, out2 := Cursor("", 0, 0, [], None), [], Cursor("", 0, 0, [], None), [];
      var st1: FileState? := null;
      if c1.Some? {
        st1 := new FileState(c1.value);
      }
      var q := new Quota(b.remaining / 2, b.events / 2);
      var ns: FileState?;
      ns, ok, out1 := ReadSourceFile(st1, path1, name1, k, snap, q, b, res);
      if !ok {
        return;
      }
      n1 := ns.View();
      var st2: FileState? := null;
      if c2.Some? {
        st2 := new FileState(c2.value);
      }
      q := new Quota(b.remaining / 1, b.events / 1);
      ns, ok, out2 := ReadSourceFile(st2, path2, name2, k, snap, q, b, res);
      if ok {
        n2 := ns.View();
      }
    }

    /** Reads both sources in this round's order; the result lists nextcloud.log first. */
    method ReadSources(k: Codec, cfg: Config, snap: Snapshot, st: State, res: Result)
      returns (ok: bool, next: State)
      requires res.View() == CollectResult(0, [], false, 0)
      modifies res
      ensures var r := ReadBoth(k, cfg, snap, st);
              ok == r.Some? && (ok ==> res.View() == r.value.Result() && next == r.value.NextState(st.round))
    {
      next := st;
      var b := new Budget(k, cfg);
      var app, appEvents, audit, auditEvents;
      if st.round % 2 == 1 {
        ok, audit, auditEvents, app, appEvents :=
          ReadInOrder(k, snap, b, res, "audit", cfg.ncAuditLog, st.audit, "app", cfg.nextcloudLog, st.app);
      } else {
        ok, app, appEvents, audit, auditEvents :=
          ReadInOrder(k, snap, b, res, "app", cfg.nextcloudLog, st.app, "audit", cfg.ncAuditLog, st.audit);
      }
      if !ok {
        return;
      }
      res.events := appEvents + auditEvents;
      res.newEvents := |res.events|;
      next := State(Some(app), Some(audit), NextRound(st.round), None);
    }

    /** Mark, append, rotate; false when a step failed. */
    method AppendEvents(k: Codec, before: State, evs: seq<NCEvent>, f: Faults) returns (ok: bool)
      modifies this
      ensures (View(), ok) == WriteEvents(k, before, old(View()), evs, f)
    {
      if f.mark {
        return false;
      }
      var mark := NewMark(jsonl);
      if f.pendingSave {
        return false;
      }
      stateFile := SaveState(before.(appending := Some(mark)));
      jsonl := Appended(jsonl, JsonlBytes(k, evs), f.append);
      if !f.append.NoFault? {
        return false;
      }
      if TooLarge(jsonl) {
        if f.rotate {
          return false;
        }
        jsonl, jsonlOld := None, jsonl;
      }
      return true;
    }

    method CollectRound(k: Codec, cfg: Config, snap: Snapshot, f: Faults) returns (outcome: Outcome)
      modifies this
      ensures (View(), outcome) == Collect(k, cfg, snap, old(View()), f)
    {
      hide LoadState, SaveState, Recover, ReadBoth, WriteEvents;
      if cfg.nextcloudLog !in snap && cfg.ncAuditLog !in snap {
        return NotInstalled;
      }
      if f.mkdir || f.recover {
        return Failed;
      }
      var st := LoadState(stateFile);
      jsonl := Recover(jsonl, st.appending);
      var before := st.(appending := None);
      if f.read {
        return Failed;
      }
      var res := new Result();
      var ok, next := ReadSources(k, cfg, snap, before, res);
      if !ok {
        return Failed;
      }
      if |res.events| > 0 {
        ok := AppendEvents(k, before, res.events, f);
        if !ok {
          return Failed;
        }
      }
      if f.finalSave {
        return Failed;
      }
      stateFile := SaveState(next);
      return Collected(res.View());
    }
  }
}
