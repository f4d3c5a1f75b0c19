/** One log source across appends, rotations and reads: nothing lost, nothing twice.

    A log is a chain of generations. The collector only ever sees the current file
    and `<path>.1`; its recorded cursor has to be enough to go on exactly where it
    stopped, whatever happened to the two files in between. */
module NextcloudSource {
  import opened Basics
  import opened Lines
  import opened NextcloudModel

  /** The log as its writer and logrotate know it. `done` are the generations closed since
      the collector's first contact, which happened at offset `first` of the oldest one.
      `rotated`: a rotation happened that the collector has not seen yet. */
  datatype Log = Log(done: seq<Bytes>, first: nat, cur: Bytes, inode: nat, present: bool, dot1: Option<File>,
                     rotated: bool)

  /** `Create` renames the file to `.1` and starts a new one; `CopyTruncate` copies it to
      `.1` and empties it in place. */
  datatype EnvStep = Append(bytes: Bytes) | Create(newInode: nat) | CopyTruncate(copyInode: nat)

  /** At most one rotation between two rounds, and only of a file that exists. */
  predicate Enabled(log: Log, e: EnvStep)
  {
    e.Append? || (log.present && !log.rotated)
  }

  function EnvNext(log: Log, e: EnvStep): Log
  {
    match e
    case Append(bytes) => log.(cur := log.cur + bytes, present := true)
    case Create(n) =>
      log.(done := log.done + [log.cur], cur := [], inode := n, dot1 := Some(Regular(log.inode, log.cur)),
           rotated := true)
    case CopyTruncate(n) =>
      log.(done := log.done + [log.cur], cur := [], dot1 := Some(Regular(n, log.cur)), rotated := true)
  }

  /** What the collector finds at `path` and `path.1`. */
  predicate Shows(snap: Snapshot, path: string, log: Log)
  {
    && Lookup(snap, path) == (if log.present then Some(Regular(log.inode, log.cur)) else None)
    && Lookup(snap, path + ".1") == log.dot1
  }

  /** Where the collector's duty starts in a generation that has `n` closed ones before it. */
  function Start(log: Log, n: nat): nat { if n == 0 then log.first else 0 }

  function ClosedLines(log: Log, n: nat): seq<Bytes>
    requires n <= |log.done|
  {
    if n == 0 then []
    else ClosedLines(log, n - 1) + LinesFrom(log.done[n - 1], Start(log, n - 1), true)
  }

  /** Every line the collector owes so far. */
  function AllLines(log: Log): seq<Bytes>
  {
    ClosedLines(log, |log.done|) + LinesFrom(log.cur, Start(log, |log.done|), false)
  }

  function LastDone(log: Log): Bytes
    requires log.done != []
  {
    log.done[|log.done| - 1]
  }

  /** The lines of `.1` still to be drained. */
  function PrevLines(log: Log, c: Cursor): seq<Bytes>
    requires c.prev.Some? ==> log.done != []
  {
    if c.prev.Some? then LinesFrom(LastDone(log), c.prev.value.offset, true) else []
  }

  /** The cursor describes the files as they are now. */
  predicate Synced(path: string, log: Log, c: Cursor)
  {
    && !log.rotated
    && c.path == path
    && (!log.present ==> log.cur == [])
    && Start(log, |log.done|) <= |log.cur|
    && c.offset <= |log.cur|
    && c.head <= log.cur
    && (c.offset > 0 ==> c.head != [])
    && (c.inode == 0 || c.inode == log.inode)
    && StopAt(log.cur, c.offset, false) == StopAt(log.cur, Start(log, |log.done|), false)
    && (c.prev.Some? ==>
          var p := c.prev.value;
          && c.offset == 0
          && log.done != [] && log.dot1.Some? && log.dot1.value.Regular? && log.dot1.value.data == LastDone(log)
          && PrevValid(p, log.dot1)
          && p.path == path + ".1")
  }

  /** The cursor describes the generation that was rotated away since. */
  predicate Stale(path: string, log: Log, c: Cursor)
  {
    && log.rotated && log.present
    && log.done != []
    && c.path == path
    && log.dot1.Some? && log.dot1.value.Regular? && log.dot1.value.data == LastDone(log)
    && c.offset <= |LastDone(log)|
    && c.head <= LastDone(log)
    && (c.offset > 0 ==> c.head != [])
    && (c.inode == 0 || c.inode == log.inode || c.inode == log.dot1.value.inode)
    && (c.prev.Some? ==> c.offset == 0 && c.prev.value.path == path + ".1")
  }

  /** The files give the rotation away: the new one is shorter than what has been read, does
      not begin as the old one did, or has another inode. */
  predicate Detected(log: Log, c: Cursor)
  {
    || |log.cur| < c.offset
    || !(c.head <= log.cur)
    || (c.inode != 0 && log.inode != 0 && log.inode != c.inode)
  }

  /** The lines still ahead of the cursor. */
  function Pending(log: Log, c: Cursor): seq<Bytes>
    requires c.prev.Some? || log.rotated ==> log.done != []
  {
    if log.rotated then
      LinesFrom(LastDone(log), c.offset, true) + LinesFrom(log.cur, 0, false)
    else
      PrevLines(log, c) + LinesFrom(log.cur, c.offset, false)
  }

  // ----- the account of one source -----

  /** A line the collector is done with: delivered, or given up with an overtaken `.1`. */
  datatype Item = Item(line: Bytes, delivered: bool)

  function LinesOf(seen: seq<Item>): seq<Bytes>
  {
    if seen == [] then [] else [seen[0].line] + LinesOf(seen[1..])
  }

  function DeliveredLines(seen: seq<Item>): seq<Bytes>
  {
    if seen == [] then []
    else (if seen[0].delivered then [seen[0].line] else []) + DeliveredLines(seen[1..])
  }

  function Items(ls: seq<Bytes>, delivered: bool): (items: seq<Item>)
    ensures LinesOf(items) == ls
    ensures DeliveredLines(items) == if delivered then ls else []
    ensures forall i :: i in items ==> i.delivered == delivered
  {
    if ls == [] then []
    else
      var rest := Items(ls[1..], delivered);
      assert ([Item(ls[0], delivered)] + rest)[1..] == rest;
      [Item(ls[0], delivered)] + rest
  }

  lemma {:induction false} LinesOfConcat(a: seq<Item>, b: seq<Item>)
    ensures LinesOf(a + b) == LinesOf(a) + LinesOf(b)
  {
    if a == [] {
      ConcatEmpty(b);
    } else {
      assert (a + b)[1..] == a[1..] + b;
      LinesOfConcat(a[1..], b);
      ConcatAssoc([a[0].line], LinesOf(a[1..]), LinesOf(b));
    }
  }

  lemma {:induction false} DeliveredConcat(a: seq<Item>, b: seq<Item>)
    ensures DeliveredLines(a + b) == DeliveredLines(a) + DeliveredLines(b)
  {
    if a == [] {
      ConcatEmpty(b);
    } else {
      assert (a + b)[1..] == a[1..] + b;
      DeliveredConcat(a[1..], b);
      ConcatAssoc(if a[0].delivered then [a[0].line] else [], DeliveredLines(a[1..]), DeliveredLines(b));
    }
  }

  lemma ItemsConcat(a: seq<Item>, b: seq<Item>)
    ensures LinesOf(a + b) == LinesOf(a) + LinesOf(b)
    ensures DeliveredLines(a + b) == DeliveredLines(a) + DeliveredLines(b)
  {
    LinesOfConcat(a, b);
    DeliveredConcat(a, b);
  }

  /** The books balance: what is behind the cursor and what is ahead of it are
      together exactly the lines owed, in order. */
  predicate Accounted(path: string, log: Log, c: Cursor, seen: seq<Item>)
  {
    && (if log.rotated then Stale(path, log, c) else Synced(path, log, c))
    && LinesOf(seen) + Pending(log, c) == AllLines(log)
  }

  // ----- what the writer and logrotate do to the books -----

  lemma ClosedLinesFrame(log: Log, log': Log, n: nat)
    requires n <= |log.done| && n <= |log'.done| && log.done[..n] == log'.done[..n] && log.first == log'.first
    ensures ClosedLines(log, n) == ClosedLines(log', n)
  {
    if n > 0 {
      assert log.done[n - 1] == log.done[..n][n - 1] == log'.done[n - 1];
      assert log.done[..n - 1] == log.done[..n][..n - 1];
      assert log'.done[..n - 1] == log'.done[..n][..n - 1];
      ClosedLinesFrame(log, log', n - 1);
    }
  }

  lemma AppendKeepsPosition(path: string, log: Log, c: Cursor, bytes: Bytes)
    requires if log.rotated then Stale(path, log, c) else Synced(path, log, c)
    ensures var log' := EnvNext(log, Append(bytes));
            if log'.rotated then Stale(path, log', c) else Synced(path, log', c)
  {
    if !log.rotated {
      LinesAppend(log.cur, bytes, c.offset);
      LinesAppend(log.cur, bytes, Start(log, |log.done|));
      hide StopAt, LinesFrom, PrevValid;
    }
  }

  lemma AppendKeepsAccount(path: string, log: Log, c: Cursor, seen: seq<Item>, bytes: Bytes)
    requires Accounted(path, log, c, seen)
    ensures Accounted(path, EnvNext(log, Append(bytes)), c, seen)
  {
    AppendKeepsPosition(path, log, c, bytes);
    var log' := EnvNext(log, Append(bytes));
    var n := |log.done|;
    var from := if log.rotated then 0 else c.offset;
    assert StopAt(log.cur, from, false) == StopAt(log.cur, Start(log, n), false);
    hide Stale, Synced, StopAt, LinesFrom, LinesOf, Pending;
    ClosedLinesFrame(log, log', n);
    LinesAppend(log.cur, bytes, from);
    LinesAppend(log.cur, bytes, Start(log, n));
    var more := LinesFrom(log'.cur, StopAt(log.cur, Start(log, n), false), false);
    PendingAppend(log, c, bytes, more);
    ConcatAssoc(LinesOf(seen), Pending(log, c), more);
    ConcatAssoc(ClosedLines(log, n), LinesFrom(log.cur, Start(log, n), false), more);
  }

  lemma PendingAppend(log: Log, c: Cursor, bytes: Bytes, more: seq<Bytes>)
    requires c.prev.Some? || log.rotated ==> log.done != []
    requires var from := if log.rotated then 0 else c.offset;
             LinesFrom(log.cur + bytes, from, false) == LinesFrom(log.cur, from, false) + more
    ensures Pending(EnvNext(log, Append(bytes)), c) == Pending(log, c) + more
  {
    if log.rotated {
      ConcatAssoc(LinesFrom(LastDone(log), c.offset, true), LinesFrom(log.cur, 0, false), more);
    } else {
      ConcatAssoc(PrevLines(log, c), LinesFrom(log.cur, c.offset, false), more);
    }
  }

  /** What a rotation adds to the lines owed: the unterminated rest of the closed file. */
  function ClosedRest(log: Log): seq<Bytes>
    requires Start(log, |log.done|) <= |log.cur|
  {
    LinesFrom(log.cur, StopAt(log.cur, Start(log, |log.done|), false), true)
  }

  lemma RotateAllLines(log: Log, e: EnvStep)
    requires !e.Append? && Start(log, |log.done|) <= |log.cur|
    ensures AllLines(EnvNext(log, e)) == AllLines(log) + ClosedRest(log)
  {
    var log' := EnvNext(log, e);
    var n := |log.done|;
    assert log'.done == log.done + [log.cur] && log'.first == log.first && log'.cur == [];
    assert LinesFrom([], 0, false) == [];
    hide LinesFrom, StopAt, EnvNext;
    ClosedLinesFrame(log, log', n);
    LinesClose(log.cur, Start(log, n));
    ConcatAssoc(ClosedLines(log, n), LinesFrom(log.cur, Start(log, n), false), ClosedRest(log));
    ConcatEmpty(ClosedLines(log', n + 1));
  }

  lemma RotatePending(path: string, log: Log, c: Cursor, e: EnvStep)
    requires !e.Append? && log.present && Synced(path, log, c)
    ensures Stale(path, EnvNext(log, e), c)
    ensures Pending(EnvNext(log, e), c) == LinesFrom(log.cur, c.offset, false) + ClosedRest(log)
  {
    LinesClose(log.cur, c.offset);
    var log' := EnvNext(log, e);
    assert LastDone(log') == log.cur;
    assert Pending(log', c) == LinesFrom(log.cur, c.offset, true) + [];
  }

  /** A rotation while `.1` is still being drained gives up the undrained rest. */
  lemma RotateKeepsAccount(path: string, log: Log, c: Cursor, seen: seq<Item>, e: EnvStep)
    requires !e.Append? && Enabled(log, e)
    requires Accounted(path, log, c, seen)
    ensures Accounted(path, EnvNext(log, e), c, seen + Items(PrevLines(log, c), false))
  {
    var lost := PrevLines(log, c);
    var open := LinesFrom(log.cur, c.offset, false);
    RotateAllLines(log, e);
    RotatePending(path, log, c, e);
    ItemsConcat(seen, Items(lost, false));
    ConcatAssoc(LinesOf(seen) + lost, open, ClosedRest(log));
    ConcatAssoc(LinesOf(seen), lost, open);
  }

  // ----- what a round does to the books -----

  /** A cursor that has just been compared with the files. */
  predicate Reconciled(path: string, log: Log, c: Cursor)
  {
    Synced(path, log, c) && (log.cur != [] ==> c.head != [])
  }

  lemma ReconcileStays(path: string, log: Log, c: Cursor, snap: Snapshot)
    requires Synced(path, log, c) && Shows(snap, path, log)
    ensures var c' := Reconcile(c, Lookup(snap, path), Lookup(snap, path + ".1"));
            Reconciled(path, log, c') && Pending(log, c') == Pending(log, c)
  {
    hide LinesFrom, StopAt, PrevIsOldFile;
  }

  lemma ReconcileFollows(path: string, log: Log, c: Cursor, snap: Snapshot)
    requires Stale(path, log, c) && Detected(log, c) && Shows(snap, path, log)
    ensures var c' := Reconcile(c, Lookup(snap, path), Lookup(snap, path + ".1"));
            var log' := log.(rotated := false);
            Reconciled(path, log', c') && Pending(log', c') == Pending(log, c)
  {
    hide LinesFrom;
  }

  /** Reconciling finds its place again: the cursor is in step with the files it finds - with
      `.1`, too, if the rest of the old generation is there - and exactly the same lines are
      ahead of it as before. */
  lemma ReconcileResumes(path: string, log: Log, c: Cursor, snap: Snapshot)
    requires if log.rotated then Stale(path, log, c) && Detected(log, c) else Synced(path, log, c)
    requires Shows(snap, path, log)
    ensures var c' := Reconcile(c, Lookup(snap, path), Lookup(snap, path + ".1"));
            var log' := log.(rotated := false);
            && Reconciled(path, log', c')
            && Pending(log', c') == Pending(log, c)
            && AllLines(log') == AllLines(log)
  {
    hide Stale, Synced, Detected, Shows, Reconcile, Reconciled, Pending;
    if log.rotated {
      ReconcileFollows(path, log, c, snap);
    } else {
      ReconcileStays(path, log, c, snap);
    }
    ClosedLinesFrame(log, log.(rotated := false), |log.done|);
  }

  /** Reading the current file consumes a first part of its lines and delivers exactly their events. */
  lemma DrainCurrentAdvances(k: Codec, source: string, path: string, log: Log, c: Cursor, file: Option<File>, m: Meter)
    returns (read: seq<Bytes>)
    requires Reconciled(path, log, c) && c.prev.None?
    requires file == if log.present then Some(Regular(log.inode, log.cur)) else None
    ensures var r := DrainCurrent(k, source, c, file, m);
            && Synced(path, log, r.cursor) && r.cursor.prev.None?
            && LinesFrom(log.cur, c.offset, false) == read + LinesFrom(log.cur, r.cursor.offset, false)
            && r.events == Harvest(k, source, m.max, read)
            && r.skipped == OversizeCount(k, source, m.max, read)
            && r.meter.max == m.max
  {
    read := [];
    if log.present {
      var r := Scan(k, source, log.cur, c.offset, false, m);
      ScanConsumes(k, source, log.cur, c.offset, false, m);
      ScanConserves(k, source, log.cur, c.offset, false, m);
      read := LinesBetween(log.cur, c.offset, r.offset);
    }
  }

  /** Reading `.1` consumes a first part of its lines; what it leaves is still a valid rest. */
  lemma DrainPrevAdvances(k: Codec, source: string, path: string, log: Log, c: Cursor, m: Meter)
    returns (read: seq<Bytes>)
    requires Synced(path, log, c) && c.prev.Some?
    ensures var r := Scan(k, source, LastDone(log), c.prev.value.offset, true, m);
            && Synced(path, log, c.(prev := Some(c.prev.value.(offset := r.offset))))
            && PrevLines(log, c) == read + LinesFrom(LastDone(log), r.offset, true)
            && (!r.more ==> PrevLines(log, c) == read)
            && r.events == Harvest(k, source, m.max, read)
            && r.skipped == OversizeCount(k, source, m.max, read)
            && r.meter.max == m.max
  {
    var r := Scan(k, source, LastDone(log), c.prev.value.offset, true, m);
    ScanConsumes(k, source, LastDone(log), c.prev.value.offset, true, m);
    ScanConserves(k, source, LastDone(log), c.prev.value.offset, true, m);
    read := LinesBetween(LastDone(log), c.prev.value.offset, r.offset);
  }

  lemma DrainAdvances(k: Codec, source: string, path: string, log: Log, c: Cursor, snap: Snapshot, m: Meter)
    returns (read: seq<Bytes>)
    requires Reconciled(path, log, c) && Shows(snap, path, log)
    ensures var r := Drain(k, source, c, snap, Lookup(snap, path), m);
            && Synced(path, log, r.cursor)
            && Pending(log, c) == read + Pending(log, r.cursor)
            && r.events == Harvest(k, source, m.max, read)
            && r.skipped == OversizeCount(k, source, m.max, read)
            && r.meter.max == m.max
  {
    if c.prev.None? {
      read := DrainCurrentAdvances(k, source, path, log, c, Lookup(snap, path), m);
      PendingWithoutPrev(log, c);
      PendingWithoutPrev(log, DrainCurrent(k, source, c, Lookup(snap, path), m).cursor);
    } else {
      var first := DrainPrevAdvances(k, source, path, log, c, m);
      var r := Scan(k, source, LastDone(log), c.prev.value.offset, true, m);
      if r.more {
        ConcatAssoc(first, LinesFrom(LastDone(log), r.offset, true), LinesFrom(log.cur, c.offset, false));
        read := first;
      } else {
        var c1 := c.(prev := None);
        var second := DrainCurrentAdvances(k, source, path, log, c1, Lookup(snap, path), r.meter);
        var d := DrainCurrent(k, source, c1, Lookup(snap, path), r.meter);
        HarvestConcat(k, source, m.max, first, second);
        OversizeConcat(k, source, m.max, first, second);
        PendingWithoutPrev(log, d.cursor);
        ConcatAssoc(first, second, LinesFrom(log.cur, d.cursor.offset, false));
        read := first + second;
        assert Drain(k, source, c, snap, Lookup(snap, path), m).cursor == d.cursor;
        assert Pending(log, c) == first + LinesFrom(log.cur, c1.offset, false);
      }
    }
  }

  lemma PendingWithoutPrev(log: Log, c: Cursor)
    requires !log.rotated && c.prev.None?
    ensures Pending(log, c) == LinesFrom(log.cur, c.offset, false)
  {
    assert [] + LinesFrom(log.cur, c.offset, false) == LinesFrom(log.cur, c.offset, false);
  }

  /** One round of one source. The lines it is done with are the first ones pending, in
      order; the events it returns are exactly theirs; the books still balance. */
  lemma RoundKeepsAccount(k: Codec, source: string, path: string, log: Log, c: Cursor, seen: seq<Item>,
                          snap: Snapshot, m: Meter)
    returns (read: seq<Bytes>)
    requires Accounted(path, log, c, seen)
    requires log.rotated ==> Detected(log, c)
    requires Shows(snap, path, log)
    ensures var r := ReadSource(k, source, Some(c), path, snap, m);
            && r.Some?
            && Accounted(path, log.(rotated := false), r.value.cursor, seen + Items(read, true))
            && Pending(log, c) == read + Pending(log.(rotated := false), r.value.cursor)
            && r.value.events == Harvest(k, source, m.max, read)
            && r.value.skipped == OversizeCount(k, source, m.max, read)
            && r.value.meter.max == m.max
  {
    var c1 := Reconcile(c, Lookup(snap, path), Lookup(snap, path + ".1"));
    var log1 := log.(rotated := false);
    ReconcileResumes(path, log, c, snap);
    read := DrainAdvances(k, source, path, log1, c1, snap, m);
    var c2 := Drain(k, source, c1, snap, Lookup(snap, path), m).cursor;
    ItemsConcat(seen, Items(read, true));
    ConcatAssoc(LinesOf(seen), read, Pending(log1, c2));
  }

  /** The first round of a source opens the books at the end of its last complete line. */
  lemma FirstRoundOpensAccount(k: Codec, source: string, c: Option<Cursor>, path: string, log: Log, snap: Snapshot,
                               m: Meter)
    requires c.None? || c.value.path != path
    requires Shows(snap, path, log) && (!log.present ==> log.cur == [])
    ensures var r := ReadSource(k, source, c, path, snap, m);
            && r.Some? && r.value.events == [] && r.value.meter == m
            && Accounted(path, log.(done := [], first := LastLineEnd(log.cur), rotated := false), r.value.cursor, [])
  {
  }

  // ----- when a rotation goes unnoticed -----

  /** The bytes the collector is about to read after a rotation, old file first. */
  function Planned(c: Cursor, log: Log): Bytes
    requires c.offset <= |log.cur|
  {
    (if c.prev.Some? && PrevValid(c.prev.value, log.dot1) then log.dot1.value.data[c.prev.value.offset..] else [])
    + log.cur[c.offset..]
  }

  /** The bytes it has not read yet. */
  function Unread(c: Cursor, log: Log): Bytes
    requires log.done != [] && c.offset <= |LastDone(log)|
  {
    LastDone(log)[c.offset..] + log.cur
  }

  /** After one rotation the collector goes on at exactly the right byte if and only if its
      guard notices the rotation, except where a wrong guess happens to change nothing: the
      old generation was empty, or it is still wholly unread and passes for the `.1` before it. */
  lemma ResumesExactlyIfNoticed(path: string, log: Log, c: Cursor, snap: Snapshot)
    requires Stale(path, log, c) && Shows(snap, path, log)
    ensures var c' := Reconcile(c, Lookup(snap, path), log.dot1);
            && c'.offset <= |log.cur|
            && (Planned(c', log) == Unread(c, log) <==>
                  || Detected(log, c)
                  || LastDone(log) == []
                  || (c.prev.Some? && PrevValid(c.prev.value, log.dot1) && c.prev.value.offset == 0))
  {
    var c' := Reconcile(c, Lookup(snap, path), log.dot1);
    var old_ := LastDone(log);
    if !Detected(log, c) {
      assert c'.prev == c.prev && c'.offset == c.offset;
      assert |Unread(c, log)| == |old_| - c.offset + |log.cur|;
      if c.prev.Some? && PrevValid(c.prev.value, log.dot1) {
        assert |Planned(c', log)| == |old_| - c.prev.value.offset + |log.cur|;
      } else {
        assert |Planned(c', log)| == |log.cur| - c.offset;
      }
    }
  }

  /** A rotation, and whatever is written after it, is survived if the new file came with an
      inode of its own, is still shorter than what had been read, or begins differently. */
  lemma RotationIsSurvived(path: string, log: Log, c: Cursor, e: EnvStep, bytes: Bytes, snap: Snapshot)
    requires log.present && Synced(path, log, c) && !e.Append?
    requires var log' := EnvNext(EnvNext(log, e), Append(bytes)); Shows(snap, path, log')
    requires || (e.Create? && c.inode != 0 && e.newInode != 0 && e.newInode != c.inode)
             || |bytes| < c.offset
             || !(c.head <= bytes)
    ensures var log' := EnvNext(EnvNext(log, e), Append(bytes));
            var c' := Reconcile(c, Lookup(snap, path), log'.dot1);
            c'.offset <= |log'.cur| && Planned(c', log') == log.cur[c.offset..] + bytes
  {
    var log1 := EnvNext(log, e);
    var log' := EnvNext(log1, Append(bytes));
    assert log'.cur == bytes && LastDone(log') == log.cur;
    RotatePending(path, log, c, e);
    AppendKeepsPosition(path, log1, c, bytes);
    hide Synced, Stale, Planned, Reconcile, Shows;
    ResumesExactlyIfNoticed(path, log', c, snap);
  }

  // ----- which files are followed -----

  /** After each look at the file the position holds its inode and its first 512 bytes. */
  lemma RecordsWhatItFound(c: Cursor, inode: nat, data: Bytes, dot1: Option<File>)
    requires |c.head| <= 512
    ensures var c' := Reconcile(c, Some(Regular(inode, data)), dot1);
            && c'.path == c.path && c'.inode == inode
            && c'.head == data[..if |data| < 512 then |data| else 512]
  {
  }

  /** A `.1` is not the old file if it is shorter than what had been read, or begins differently;
      of a file seen empty, only the inodes can tell. */
  predicate Foreign(c: Cursor, curInode: nat, dot1: Option<File>)
  {
    || dot1.None? || dot1.value.Directory?
    || |dot1.value.data| < c.offset
    || (c.head != [] && !(c.head <= dot1.value.data))
    || (c.head == [] && c.inode != 0 && dot1.value.inode != 0 && dot1.value.inode != c.inode && curInode != c.inode)
  }

  /** After a rotation the rest of `.1` is read if and only if `.1` is the old file. */
  lemma TakesOverExactly(c: Cursor, log: Log, dot1: Option<File>)
    requires Detected(log, c)
    ensures Reconcile(c, Some(Regular(log.inode, log.cur)), dot1).prev
         == if Foreign(c, log.inode, dot1) then None
            else Some(PrevState(c.path + ".1", c.offset, dot1.value.inode, c.head))
  {
  }

  /** A rest whose file was replaced or cut in the meantime is dropped, and only then. */
  lemma ForeignRestIsDropped(k: Codec, source: string, c: Cursor, snap: Snapshot, file: Option<File>, m: Meter)
    requires c.prev.Some? && (file.Some? ==> file.value.Regular?)
    ensures var p := c.prev.value;
            var dot1 := Lookup(snap, p.path);
            var kept := dot1.Some? && dot1.value.Regular? && |dot1.value.data| >= p.offset && p.head <= dot1.value.data
                        && (p.inode == 0 || dot1.value.inode == 0 || dot1.value.inode == p.inode);
            var r := Drain(k, source, c, snap, file, m);
            if !kept then
              r == DrainCurrent(k, source, c.(prev := None), file, m)
            else
              var rest := Scan(k, source, dot1.value.data, p.offset, true, m);
              rest.events <= r.events && (rest.more ==> r.cursor == c.(prev := Some(p.(offset := rest.offset))))
  {
  }

  /** A source is unreadable exactly if its path is a directory; a new path starts over. */
  lemma PathChangeStartsOver(k: Codec, source: string, c: Option<Cursor>, path: string, snap: Snapshot, m: Meter)
    ensures var r := ReadSource(k, source, c, path, snap, m);
            && (r.None? <==> path in snap && snap[path] == Directory)
            && (r.Some? && (c.None? || c.value.path != path) ==>
                  && r.value.events == [] && r.value.meter == m
                  && r.value.cursor == if path !in snap then Cursor(path, 0, 0, [], None)
                                       else
                                         var data := snap[path].data;
                                         Cursor(path, LastLineEnd(data), snap[path].inode,
                                                data[..if |data| < 512 then |data| else 512], None))
  {
  }

  /** A file that was empty when last seen has no fingerprint, so a `copytruncate` of what
      was written since goes unnoticed: its lines are in `.1` and are never read. */
  lemma YoungLogIsLost(path: string, inode: nat, copyInode: nat, line: Bytes)
    requires line != [] && inode != 0
    ensures var c := FirstContact(path, Some(Regular(inode, [])));
            var log := EnvNext(EnvNext(Log([], 0, [], inode, true, None, false), Append(line)),
                               CopyTruncate(copyInode));
            var snap := map[path := Regular(inode, log.cur), path + ".1" := log.dot1.value];
            && Accounted(path, EnvNext(Log([], 0, [], inode, true, None, false), Append(line)), c, [])
            && Stale(path, log, c) && !Detected(log, c)
            && Unread(c, log) == line
            && Planned(Reconcile(c, Lookup(snap, path), log.dot1), log) == []
  {
    var log0 := Log([], 0, [], inode, true, None, false);
    var c := FirstContact(path, Some(Regular(inode, [])));
    assert Accounted(path, log0, c, []);
    AppendKeepsAccount(path, log0, c, [], line);
    var log1 := EnvNext(log0, Append(line));
    RotatePending(path, log1, c, CopyTruncate(copyInode));
    var log := EnvNext(log1, CopyTruncate(copyInode));
    assert log1.cur == line && log.cur == [];
  }
}
