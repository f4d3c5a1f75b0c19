/** The tailer of the monitor's daily audit logs: it follows one file, and moves on to the
    newest one when the followed file is read to its end. */
module AuditTail {
  import opened Basics
  import opened Lines

  const MAX_EVENTS_PER_COLLECT: nat := 5000

  /** The decoded line; which fields it has does not matter to the tailer. `decode` covers
      trimming and JSON parsing. */
  datatype AuditEvent = AuditEvent(fields: map<string, string>)

  type Decoder = Bytes -> Option<AuditEvent>

  /** The log directory: its files in name order, which is date order. */
  datatype LogFile = LogFile(name: string, data: Bytes)

  datatype TailState = TailState(currentFile: string, offset: nat)

  function EventsOf(decode: Decoder, ls: seq<Bytes>): seq<AuditEvent>
  {
    if ls == [] then []
    else
      (match decode(ls[0])
       case None => []
       case Some(ev) => [ev])
      + EventsOf(decode, ls[1..])
  }

  lemma {:induction false} EventsConcat(decode: Decoder, a: seq<Bytes>, b: seq<Bytes>)
    ensures EventsOf(decode, a + b) == EventsOf(decode, a) + EventsOf(decode, b)
  {
    if a == [] {
      ConcatEmpty(b);
    } else {
      assert (a + b)[1..] == a[1..] + b;
      EventsConcat(decode, a[1..], b);
    }
  }

  /** What `readFromOffset` computes: complete lines up to the limit on events; no limit if
      `maxEvents` is not positive. */
  function ReadFrom(decode: Decoder, s: Bytes, i: nat, maxEvents: int): (r: (nat, seq<AuditEvent>))
    ensures i <= r.0 && (i <= |s| ==> r.0 <= |s|)
    ensures maxEvents > 0 ==> |r.1| <= maxEvents
    decreases |s| - i
  {
    if !HasLine(s, i, false) then (i, [])
    else
      var e := LineEnd(s, i);
      match decode(s[i..e])
      case None => ReadFrom(decode, s, e, maxEvents)
      case Some(ev) =>
        if maxEvents == 1 then (e, [ev])
        else
          var r := ReadFrom(decode, s, e, maxEvents - 1);
          (r.0, [ev] + r.1)
  }

  lemma EventsUnfold(decode: Decoder, s: Bytes, i: nat)
    requires HasLine(s, i, false)
    ensures EventsOf(decode, LinesFrom(s, i, false))
         == (match decode(s[i..LineEnd(s, i)]) case None => [] case Some(ev) => [ev])
            + EventsOf(decode, LinesFrom(s, LineEnd(s, i), false))
    ensures StopAt(s, i, false) == StopAt(s, LineEnd(s, i), false)
  {
    assert LinesFrom(s, i, false)[1..] == LinesFrom(s, LineEnd(s, i), false);
  }

  /** Reading loses nothing: events found and events still ahead are the events of all lines.
      It only stops early when the limit is reached. */
  lemma {:induction false} ReadFromIsLossless(decode: Decoder, s: Bytes, i: nat, maxEvents: int)
    requires i <= |s|
    ensures var (off, evs) := ReadFrom(decode, s, i, maxEvents);
            && EventsOf(decode, LinesFrom(s, i, false)) == evs + EventsOf(decode, LinesFrom(s, off, false))
            && StopAt(s, off, false) == StopAt(s, i, false)
            && (maxEvents <= 0 || |evs| < maxEvents ==> off == StopAt(s, i, false))
    decreases |s| - i
  {
    if HasLine(s, i, false) {
      var e := LineEnd(s, i);
      EventsUnfold(decode, s, i);
      hide LinesFrom, EventsOf;
      var d := decode(s[i..e]);
      if d.None? {
        ReadFromIsLossless(decode, s, e, maxEvents);
      } else if maxEvents != 1 {
        ReadFromIsLossless(decode, s, e, maxEvents - 1);
        var r := ReadFrom(decode, s, e, maxEvents - 1);
        ConcatAssoc([d.value], r.1, EventsOf(decode, LinesFrom(s, r.0, false)));
      }
    }
  }

  /** The whole read, for a loop that has found `events` and arrived at offset `i`. */
  function ReadOn(decode: Decoder, s: Bytes, i: nat, maxEvents: int, events: seq<AuditEvent>): (nat, seq<AuditEvent>)
  {
    var r := ReadFrom(decode, s, i, maxEvents - |events|);
    (r.0, events + r.1)
  }

  lemma ReadOnStep(decode: Decoder, s: Bytes, i: nat, maxEvents: int, events: seq<AuditEvent>)
    requires maxEvents > 0 ==> |events| < maxEvents
    ensures var whole := ReadOn(decode, s, i, maxEvents, events);
            if !HasLine(s, i, false) then whole == (i, events)
            else
              var e := LineEnd(s, i);
              var d := decode(s[i..e]);
              if d.None? then whole == ReadOn(decode, s, e, maxEvents, events)
              else if maxEvents == |events| + 1 then whole == (e, events + [d.value])
              else whole == ReadOn(decode, s, e, maxEvents, events + [d.value])
  {
    ConcatEmpty(events);
    if HasLine(s, i, false) {
      var e := LineEnd(s, i);
      var d := decode(s[i..e]);
      if d.Some? {
        ConcatAssoc(events, [d.value], ReadFrom(decode, s, e, maxEvents - |events| - 1).1);
      }
    }
  }

  function Find(files: seq<LogFile>, name: string): Option<Bytes>
  {
    if files == [] then None
    else if files[0].name == name then Some(files[0].data)
    else Find(files[1..], name)
  }

  /** What one Collect reads, and the position to save. */
  datatype Reading = Reading(events: seq<AuditEvent>, next: TailState)

  function Read(decode: Decoder, files: seq<LogFile>, st: Option<TailState>): Reading
    requires files != []
  {
    var latest := files[|files| - 1];
    if st.Some? && st.value.currentFile != "" && st.value.currentFile != latest.name then
      match Find(files, st.value.currentFile)
      case None =>
        var r := ReadFrom(decode, latest.data, 0, MAX_EVENTS_PER_COLLECT);
        Reading(r.1, TailState(latest.name, r.0))
      case Some(old_) =>
        var o := ReadFrom(decode, old_, st.value.offset, MAX_EVENTS_PER_COLLECT);
        if |o.1| >= MAX_EVENTS_PER_COLLECT then
          Reading(o.1, TailState(st.value.currentFile, o.0))
        else
          var r := ReadFrom(decode, latest.data, 0, MAX_EVENTS_PER_COLLECT - |o.1|);
          Reading(o.1 + r.1, TailState(latest.name, r.0))
    else
      var start := if st.Some? && st.value.currentFile == latest.name then st.value.offset else 0;
      var r := ReadFrom(decode, latest.data, if |latest.data| < start then 0 else start, MAX_EVENTS_PER_COLLECT);
      Reading(r.1, TailState(latest.name, r.0))
  }

  lemma {:induction false} FindNone(files: seq<LogFile>, name: string)
    ensures Find(files, name).None? <==> forall i :: 0 <= i < |files| ==> files[i].name != name
  {
    if files != [] {
      FindNone(files[1..], name);
      assert forall i :: 1 <= i < |files| ==> files[i] == files[1..][i - 1];
    }
  }

  /** At first contact, or when the followed file is gone or the newest one has been cut, the newest
      file is read from its start: as many of its events as the limit allows, and it is followed
      from where that ended. */
  lemma NewestIsReadFromItsStart(decode: Decoder, files: seq<LogFile>, st: Option<TailState>)
    requires files != []
    requires var latest := files[|files| - 1];
             || st.None? || (st.value.currentFile == "" && latest.name != "")
             || (forall i :: 0 <= i < |files| ==> files[i].name != st.value.currentFile)
             || (st.value.currentFile == latest.name && |latest.data| < st.value.offset)
    ensures var latest, r := files[|files| - 1], Read(decode, files, st);
            && r.next.currentFile == latest.name && r.next.offset <= |latest.data|
            && EventsOf(decode, LinesFrom(latest.data, 0, false))
               == r.events + EventsOf(decode, LinesFrom(latest.data, r.next.offset, false))
            && |r.events| <= 5000 && (|r.events| < 5000 ==> r.next.offset == LastLineEnd(latest.data))
  {
    var data := files[|files| - 1].data;
    if st.Some? {
      FindNone(files, st.value.currentFile);
    }
    ReadFromIsLossless(decode, data, 0, 5000);
    StopAtIsLastLineEnd(data, 0);
    hide ReadFrom, LinesFrom, EventsOf, Find;
  }

  // ----- the collector -----

  datatype Outcome = Empty | Failed | Collected(events: seq<AuditEvent>)

  class Collector {
    var state: Option<TailState>

    /** Reads complete lines only: an unterminated last line stays for a later round. */
    method ReadFile(decode: Decoder, data: Bytes, offset: nat, maxEvents: int)
      returns (events: seq<AuditEvent>, consumed: nat)
      ensures (consumed, events) == ReadFrom(decode, data, offset, maxEvents)
    {
      consumed, events := offset, [];
      ConcatEmpty(ReadFrom(decode, data, offset, maxEvents).1);
      assert ReadFrom(decode, data, offset, maxEvents) == ReadOn(decode, data, offset, maxEvents, []);
      hide ReadFrom, ReadOn;
      while true
        invariant maxEvents > 0 ==> |events| < maxEvents
        invariant ReadFrom(decode, data, offset, maxEvents) == ReadOn(decode, data, consumed, maxEvents, events)
        decreases |data| - consumed
      {
        ReadOnStep(decode, data, consumed, maxEvents, events);
        if consumed >= |data| || data[LineEnd(data, consumed) - 1] != NEWLINE {
          break;
        }
        var line := data[consumed..LineEnd(data, consumed)];
        consumed := consumed + |line|;
        var ev := decode(line);
        if ev.Some? {
          events := events + [ev.value];
        }
        if maxEvents > 0 && |events| >= maxEvents {
          return;
        }
      }
    }

    method Collect(decode: Decoder, files: seq<LogFile>, saveFails: bool) returns (o: Outcome)
      modifies this
      ensures files == [] ==> o == Empty && state == old(state)
      ensures files != [] ==>
                var r := Read(decode, files, old(state));
                if saveFails then o == Failed && state == old(state)
                else o == Collected(r.events) && state == Some(r.next)
    {
      if files == [] {
        return Empty;
      }
      var latest := files[|files| - 1];
      var events, newOffset := [], 0;
      var currentFile := latest.name;
      if state.Some? && state.value.currentFile != "" && state.value.currentFile != latest.name {
        var old_ := Find(files, state.value.currentFile);
        if old_.Some? {
          var oldEvents, oldOff := ReadFile(decode, old_.value, state.value.offset, MAX_EVENTS_PER_COLLECT);
          events := oldEvents;
          if |oldEvents| >= MAX_EVENTS_PER_COLLECT {
            currentFile, newOffset := state.value.currentFile, oldOff;
            if saveFails {
              return Failed;
            }
            state := Some(TailState(currentFile, newOffset));
            return Collected(events);
          }
        }
        var newEvents, off := ReadFile(decode, latest.data, 0, MAX_EVENTS_PER_COLLECT - |events|);
        ConcatEmpty(newEvents);
        events, newOffset := events + newEvents, off;
      } else {
        var startOffset := 0;
        if state.Some? && state.value.currentFile == latest.name {
          startOffset := state.value.offset;
        }
        if |latest.data| < startOffset {
          startOffset := 0;
        }
        events, newOffset := ReadFile(decode, latest.data, startOffset, MAX_EVENTS_PER_COLLECT);
      }
      if saveFails {
        return Failed;
      }
      state := Some(TailState(currentFile, newOffset));
      return Collected(events);
    }
  }

  // ----- runs -----

  /** `first` is the file of the first contact, `at` the file being followed; both count from
      the oldest file. */
  datatype World = World(files: seq<LogFile>, state: Option<TailState>, first: nat, at: nat, returned: seq<AuditEvent>)

  datatype Step = Write(bytes: Bytes) | NewDay(name: string) | Round(saveFails: bool)

  predicate Distinct(files: seq<LogFile>)
  {
    forall i, j :: 0 <= i < j < |files| ==> files[i].name != files[j].name
  }

  /** The writer writes to the newest file; a new day brings a new, non-empty name. */
  predicate StepOk(w: World, s: Step)
  {
    match s
    case Write(bytes) => w.files != []
    case NewDay(name) => name != "" && forall i :: 0 <= i < |w.files| ==> w.files[i].name != name
    case Round(saveFails) => true
  }

  function Next(decode: Decoder, w: World, s: Step): World
  {
    match s
    case Write(bytes) =>
      if w.files == [] then w else
        var n := |w.files| - 1;
        w.(files := w.files[n := w.files[n].(data := w.files[n].data + bytes)])
    case NewDay(name) => w.(files := w.files + [LogFile(name, [])])
    case Round(saveFails) =>
      if w.files == [] || saveFails then w
      else
        var r := Read(decode, w.files, w.state);
        var last := |w.files| - 1;
        w.(state := Some(r.next), returned := w.returned + r.events,
           first := if w.state.None? then last else w.first,
           at := if r.next.currentFile == w.files[last].name then last else w.at)
  }

  /** Events of the complete lines of the files from `i` up to but excluding `j`. */
  function FileEvents(decode: Decoder, files: seq<LogFile>, i: nat, j: nat): seq<AuditEvent>
    requires j <= |files|
    decreases j
  {
    if i >= j then []
    else FileEvents(decode, files, i, j - 1) + EventsOf(decode, LinesFrom(files[j - 1].data, 0, false))
  }

  /** Events ahead in the followed file. */
  function Ahead(decode: Decoder, w: World): seq<AuditEvent>
    requires w.state.Some? && w.at < |w.files|
  {
    EventsOf(decode, LinesFrom(w.files[w.at].data, w.state.value.offset, false))
  }

  /** The position is sound: it lies on a line boundary of the followed file. */
  predicate PositionOk(w: World)
  {
    && Distinct(w.files)
    && (forall i :: 0 <= i < |w.files| ==> w.files[i].name != "")
    && (w.state.Some? ==>
          && w.first <= w.at < |w.files|
          && w.state.value.currentFile == w.files[w.at].name
          && w.state.value.offset <= |w.files[w.at].data|
          && StopAt(w.files[w.at].data, w.state.value.offset, false) == StopAt(w.files[w.at].data, 0, false))
    && (w.state.None? ==> w.returned == [])
  }

  /** The books: returned events, then those ahead in the followed file, then those of all
      newer files, are exactly the events of all files since the first contact. */
  predicate Balanced(decode: Decoder, w: World)
    requires PositionOk(w)
  {
    w.state.Some? ==>
      w.returned + (Ahead(decode, w) + FileEvents(decode, w.files, w.at + 1, |w.files|))
        == FileEvents(decode, w.files, w.first, |w.files|)
  }

  // ----- steps of the environment -----

  lemma {:induction false} FileEventsFrame(decode: Decoder, a: seq<LogFile>, b: seq<LogFile>, i: nat, j: nat)
    requires j <= |a| && j <= |b| && forall n :: i <= n < j ==> a[n].data == b[n].data
    ensures FileEvents(decode, a, i, j) == FileEvents(decode, b, i, j)
    decreases j
  {
    if i < j {
      FileEventsFrame(decode, a, b, i, j - 1);
    }
  }

  lemma {:induction false} FileEventsSplit(decode: Decoder, files: seq<LogFile>, i: nat, m: nat, j: nat)
    requires i <= m <= j <= |files|
    ensures FileEvents(decode, files, i, j) == FileEvents(decode, files, i, m) + FileEvents(decode, files, m, j)
    decreases j
  {
    if m < j {
      FileEventsSplit(decode, files, i, m, j - 1);
      ConcatAssoc(FileEvents(decode, files, i, m), FileEvents(decode, files, m, j - 1),
                  EventsOf(decode, LinesFrom(files[j - 1].data, 0, false)));
    } else {
      ConcatEmpty(FileEvents(decode, files, i, m));
    }
  }

  lemma WriteAddsEvents(decode: Decoder, data: Bytes, bytes: Bytes, i: nat)
    requires i <= |data|
    ensures EventsOf(decode, LinesFrom(data + bytes, i, false))
         == EventsOf(decode, LinesFrom(data, i, false))
            + EventsOf(decode, LinesFrom(data + bytes, StopAt(data, i, false), false))
    ensures StopAt(data + bytes, i, false) == StopAt(data + bytes, StopAt(data, i, false), false)
  {
    LinesAppend(data, bytes, i);
    EventsConcat(decode, LinesFrom(data, i, false), LinesFrom(data + bytes, StopAt(data, i, false), false));
  }

  /** What a write adds to the events of the newest file. */
  function Written(decode: Decoder, data: Bytes, bytes: Bytes): seq<AuditEvent>
  {
    EventsOf(decode, LinesFrom(data + bytes, StopAt(data, 0, false), false))
  }

  lemma WriteAddsToFiles(decode: Decoder, w: World, bytes: Bytes, i: nat)
    requires w.files != [] && i < |w.files|
    ensures FileEvents(decode, Next(decode, w, Write(bytes)).files, i, |w.files|)
         == FileEvents(decode, w.files, i, |w.files|) + Written(decode, w.files[|w.files| - 1].data, bytes)
  {
    var files' := Next(decode, w, Write(bytes)).files;
    var last := |w.files| - 1;
    var data := w.files[last].data;
    FileEventsFrame(decode, w.files, files', i, last);
    WriteAddsEvents(decode, data, bytes, 0);
    ConcatAssoc(FileEvents(decode, w.files, i, last), EventsOf(decode, LinesFrom(data, 0, false)),
                Written(decode, data, bytes));
    hide EventsOf, LinesFrom;
  }

  lemma WriteKeepsPosition(decode: Decoder, w: World, bytes: Bytes)
    requires w.files != [] && PositionOk(w)
    ensures PositionOk(Next(decode, w, Write(bytes)))
  {
    var w' := Next(decode, w, Write(bytes));
    assert forall i :: 0 <= i < |w.files| ==> w'.files[i].name == w.files[i].name;
    if w.state.Some? {
      var data := w.files[|w.files| - 1].data;
      WriteAddsEvents(decode, data, bytes, 0);
      if w.at == |w.files| - 1 {
        WriteAddsEvents(decode, data, bytes, w.state.value.offset);
      }
    }
  }

  /** What a write adds is ahead of the collector, in the followed file or in the newer one. */
  lemma WriteToFollowed(decode: Decoder, w: World, bytes: Bytes)
    requires w.files != [] && PositionOk(w) && w.state.Some? && w.at == |w.files| - 1
    ensures var w' := Next(decode, w, Write(bytes));
            w'.at < |w'.files|
            && Ahead(decode, w') == Ahead(decode, w) + Written(decode, w.files[|w.files| - 1].data, bytes)
  {
    var data := w.files[|w.files| - 1].data;
    WriteAddsEvents(decode, data, bytes, w.state.value.offset);
    assert StopAt(data, w.state.value.offset, false) == StopAt(data, 0, false);
    hide EventsOf, LinesFrom, StopAt, PositionOk;
  }

  lemma WriteIsAhead(decode: Decoder, w: World, bytes: Bytes)
    requires w.files != [] && PositionOk(w) && w.state.Some?
    ensures var w' := Next(decode, w, Write(bytes));
            w'.at < |w'.files|
            && Ahead(decode, w') + FileEvents(decode, w'.files, w.at + 1, |w.files|)
            == (Ahead(decode, w) + FileEvents(decode, w.files, w.at + 1, |w.files|))
               + Written(decode, w.files[|w.files| - 1].data, bytes)
  {
    var last := |w.files| - 1;
    var data := w.files[last].data;
    var ahead := Ahead(decode, w);
    assert w.at <= last;
    if w.at == last {
      WriteToFollowed(decode, w, bytes);
      hide EventsOf, LinesFrom, StopAt, PositionOk, Ahead, Written;
      ConcatEmpty(ahead);
      ConcatEmpty(ahead + Written(decode, data, bytes));
    } else {
      hide EventsOf, LinesFrom, StopAt, PositionOk, FileEvents, Written;
      WriteAddsToFiles(decode, w, bytes, w.at + 1);
      ConcatAssoc(ahead, FileEvents(decode, w.files, w.at + 1, |w.files|), Written(decode, data, bytes));
    }
  }

  lemma WriteKeepsBooks(decode: Decoder, w: World, bytes: Bytes)
    requires w.files != [] && PositionOk(w) && Balanced(decode, w)
    ensures var w' := Next(decode, w, Write(bytes)); PositionOk(w') && Balanced(decode, w')
  {
    hide FileEvents, Ahead, Written, EventsOf, LinesFrom, StopAt;
    WriteKeepsPosition(decode, w, bytes);
    if w.state.Some? {
      assert w.first <= w.at < |w.files|;
      WriteIsAhead(decode, w, bytes);
      WriteAddsToFiles(decode, w, bytes, w.first);
      hide PositionOk;
      ConcatAssoc(w.returned, Ahead(decode, w) + FileEvents(decode, w.files, w.at + 1, |w.files|),
                  Written(decode, w.files[|w.files| - 1].data, bytes));
    }
  }

  lemma NewDayAddsNoEvents(decode: Decoder, w: World, name: string, i: nat)
    requires i <= |w.files|
    ensures FileEvents(decode, Next(decode, w, NewDay(name)).files, i, |w.files| + 1)
        == FileEvents(decode, w.files, i, |w.files|)
  {
    FileEventsFrame(decode, w.files, Next(decode, w, NewDay(name)).files, i, |w.files|);
    assert LinesFrom([], 0, false) == [];
    ConcatEmpty(FileEvents(decode, w.files, i, |w.files|));
  }

  lemma NewDayKeepsPosition(decode: Decoder, w: World, name: string)
    requires StepOk(w, NewDay(name)) && PositionOk(w)
    ensures PositionOk(Next(decode, w, NewDay(name)))
  {
    hide StopAt;
    var w' := Next(decode, w, NewDay(name));
    assert forall i :: 0 <= i < |w.files| ==> w'.files[i] == w.files[i];
  }

  lemma NewDayKeepsBooks(decode: Decoder, w: World, name: string)
    requires StepOk(w, NewDay(name)) && PositionOk(w) && Balanced(decode, w)
    ensures var w' := Next(decode, w, NewDay(name)); PositionOk(w') && Balanced(decode, w')
  {
    hide FileEvents, EventsOf, LinesFrom, StopAt;
    NewDayKeepsPosition(decode, w, name);
    if w.state.Some? {
      assert w.first <= w.at < |w.files|;
      var w' := Next(decode, w, NewDay(name));
      assert Ahead(decode, w') == Ahead(decode, w) && |w'.files| == |w.files| + 1;
      hide PositionOk, Ahead;
      NewDayAddsNoEvents(decode, w, name, w.first);
      NewDayAddsNoEvents(decode, w, name, w.at + 1);
    }
  }

  // ----- rounds -----

  lemma {:induction false} FindByName(files: seq<LogFile>, i: nat)
    requires i < |files| && Distinct(files)
    ensures Find(files, files[i].name) == Some(files[i].data)
  {
    if i > 0 {
      assert files[0].name != files[i].name;
      FindByName(files[1..], i - 1);
    }
  }

  /** The old file's rest fits into this round, so the collector moves on to the newest file. */
  predicate MovesOn(decode: Decoder, w: World)
  {
    && w.state.Some? && w.at + 1 < |w.files|
    && |ReadFrom(decode, w.files[w.at].data, w.state.value.offset, MAX_EVENTS_PER_COLLECT).1| < MAX_EVENTS_PER_COLLECT
  }

  /** Files older than the newest one that are passed over when it moves on. */
  function PassedOver(decode: Decoder, w: World): seq<AuditEvent>
  {
    if MovesOn(decode, w) then FileEvents(decode, w.files, w.at + 1, |w.files| - 1) else []
  }

  lemma StayReads(decode: Decoder, w: World)
    requires w.files != [] && PositionOk(w) && w.state.Some? && !MovesOn(decode, w)
    ensures var o := ReadFrom(decode, w.files[w.at].data, w.state.value.offset, MAX_EVENTS_PER_COLLECT);
            Read(decode, w.files, w.state) == Reading(o.1, TailState(w.files[w.at].name, o.0))
  {
    var last := |w.files| - 1;
    if w.at < last {
      assert w.files[w.at].name != w.files[last].name;
      FindByName(w.files, w.at);
    }
    hide ReadFrom, LinesFrom, StopAt, Find;
  }

  /** Following one file, to its end or up to the limit. */
  lemma StaySteps(decode: Decoder, w: World)
    requires w.files != [] && PositionOk(w) && w.state.Some? && !MovesOn(decode, w)
    ensures var w' := Next(decode, w, Round(false));
            && PositionOk(w') && w'.first == w.first && w'.at == w.at
            && Ahead(decode, w) == Read(decode, w.files, w.state).events + Ahead(decode, w')
  {
    StayReads(decode, w);
    hide Read, ReadFrom, LinesFrom, EventsOf, MovesOn;
    ReadFromIsLossless(decode, w.files[w.at].data, w.state.value.offset, MAX_EVENTS_PER_COLLECT);
    hide StopAt;
  }

  lemma MoveReads(decode: Decoder, w: World)
    requires w.files != [] && PositionOk(w) && w.state.Some? && MovesOn(decode, w)
    ensures var last := w.files[|w.files| - 1];
            var o := ReadFrom(decode, w.files[w.at].data, w.state.value.offset, MAX_EVENTS_PER_COLLECT);
            var r := ReadFrom(decode, last.data, 0, MAX_EVENTS_PER_COLLECT - |o.1|);
            Read(decode, w.files, w.state) == Reading(o.1 + r.1, TailState(last.name, r.0))
  {
    assert w.files[w.at].name != w.files[|w.files| - 1].name;
    FindByName(w.files, w.at);
    hide ReadFrom, LinesFrom, StopAt, Find;
  }

  /** The followed file is read to its end: its events were all that was ahead in it. */
  lemma RestIsRead(decode: Decoder, w: World)
    requires w.files != [] && PositionOk(w) && w.state.Some? && MovesOn(decode, w)
    ensures Ahead(decode, w) == ReadFrom(decode, w.files[w.at].data, w.state.value.offset, MAX_EVENTS_PER_COLLECT).1
  {
    var data, off := w.files[w.at].data, w.state.value.offset;
    var o := ReadFrom(decode, data, off, MAX_EVENTS_PER_COLLECT);
    ReadFromIsLossless(decode, data, off, MAX_EVENTS_PER_COLLECT);
    hide ReadFrom;
    assert LinesFrom(data, o.0, false) == [];
    ConcatEmpty(o.1);
  }

  /** Reading the old file's rest and then the newest file from its start. */
  lemma MoveSteps(decode: Decoder, w: World)
    requires w.files != [] && PositionOk(w) && w.state.Some? && MovesOn(decode, w)
    ensures var w' := Next(decode, w, Round(false));
            && PositionOk(w') && w'.first == w.first && w'.at == |w.files| - 1
            && Ahead(decode, w) + EventsOf(decode, LinesFrom(w.files[|w.files| - 1].data, 0, false))
               == Read(decode, w.files, w.state).events + Ahead(decode, w')
  {
    MoveReads(decode, w);
    RestIsRead(decode, w);
    hide Read, ReadFrom, LinesFrom, EventsOf;
    var newest := w.files[|w.files| - 1].data;
    var o := ReadFrom(decode, w.files[w.at].data, w.state.value.offset, MAX_EVENTS_PER_COLLECT);
    var room := MAX_EVENTS_PER_COLLECT - |o.1|;
    var r := ReadFrom(decode, newest, 0, room);
    ReadFromIsLossless(decode, newest, 0, room);
    hide StopAt, MovesOn;
    ConcatAssoc(o.1, r.1, EventsOf(decode, LinesFrom(newest, r.0, false)));
  }

  lemma MovesOrStays(decode: Decoder, w: World)
    requires w.files != [] && PositionOk(w) && w.state.Some?
    ensures var w' := Next(decode, w, Round(false));
            PositionOk(w') && w'.state.Some? && (w'.at == if MovesOn(decode, w) then |w.files| - 1 else w.at)
  {
    if MovesOn(decode, w) {
      MoveSteps(decode, w);
    } else {
      StaySteps(decode, w);
    }
  }

  /** No Collect returns more than the limit, wherever the collector is and whatever it finds. */
  lemma AtMostTheLimit(decode: Decoder, files: seq<LogFile>, st: Option<TailState>)
    requires files != []
    ensures |Read(decode, files, st).events| <= 5000
  {
  }

  lemma FirstRoundKeepsBooks(decode: Decoder, w: World)
    requires w.files != [] && PositionOk(w) && w.state.None?
    ensures var w' := Next(decode, w, Round(false)); PositionOk(w') && Balanced(decode, w')
  {
    var last := |w.files| - 1;
    var data := w.files[last].data;
    ReadFromIsLossless(decode, data, 0, MAX_EVENTS_PER_COLLECT);
    var r := ReadFrom(decode, data, 0, MAX_EVENTS_PER_COLLECT);
    ConcatEmpty(r.1);
    ConcatEmpty(EventsOf(decode, LinesFrom(data, 0, false)));
    ConcatEmpty(EventsOf(decode, LinesFrom(data, r.0, false)));
    assert FileEvents(decode, w.files, last, last) == [];
  }

  /** A round keeps the books if and only if it passes over no file that holds an event: only
      the newest file is read after the one being followed, never one in between. */
  lemma RoundKeepsBooksIff(decode: Decoder, w: World)
    requires w.files != [] && PositionOk(w) && w.state.Some? && Balanced(decode, w)
    ensures var w' := Next(decode, w, Round(false));
            PositionOk(w') && (Balanced(decode, w') <==> PassedOver(decode, w) == [])
  {
    var w' := Next(decode, w, Round(false));
    var n := |w.files|;
    var read := Read(decode, w.files, w.state).events;
    MovesOrStays(decode, w);
    var ahead, ahead' := Ahead(decode, w), Ahead(decode, w');
    var newer := FileEvents(decode, w.files, w.at + 1, n);
    ConcatEmpty(ahead);
    ConcatEmpty(ahead');
    if MovesOn(decode, w) {
      MoveSteps(decode, w);
      var lost := PassedOver(decode, w);
      var last := EventsOf(decode, LinesFrom(w.files[n - 1].data, 0, false));
      assert newer == lost + last;
      assert |w'.returned + ahead'| == |w.returned| + |ahead| + |last|;
      assert |w.returned + (ahead + newer)| == |w.returned| + |ahead| + |lost| + |last|;
      if lost == [] {
        ConcatEmpty(last);
        ConcatAssoc(w.returned, read, ahead');
      }
    } else {
      StaySteps(decode, w);
      ConcatAssoc(read, ahead', newer);
      ConcatAssoc(w.returned, read, ahead' + newer);
    }
  }

  // ----- the main result -----

  /** No further file appears before the collector has moved on to the newest one. */
  predicate RunOk(decode: Decoder, w: World, steps: seq<Step>)
    decreases |steps|
  {
    steps == [] ||
    (&& StepOk(w, steps[0])
     && (steps[0].NewDay? ==> w.state.None? || w.at + 1 == |w.files|)
     && RunOk(decode, Next(decode, w, steps[0]), steps[1..]))
  }

  function Run(decode: Decoder, w: World, steps: seq<Step>): World
    decreases |steps|
  {
    if steps == [] then w else Run(decode, Next(decode, w, steps[0]), steps[1..])
  }

  predicate KeepsUp(w: World) { w.state.Some? ==> w.at + 2 >= |w.files| }

  lemma StepKeepsBooks(decode: Decoder, w: World, s: Step)
    requires PositionOk(w) && Balanced(decode, w) && KeepsUp(w) && StepOk(w, s)
    requires s.NewDay? ==> w.state.None? || w.at + 1 == |w.files|
    ensures var w' := Next(decode, w, s); PositionOk(w') && Balanced(decode, w') && KeepsUp(w')
  {
    match s
    case Write(bytes) => WriteKeepsBooks(decode, w, bytes);
    case NewDay(name) => NewDayKeepsBooks(decode, w, name);
    case Round(saveFails) =>
      if w.files != [] && !saveFails {
        if w.state.None? {
          FirstRoundKeepsBooks(decode, w);
        } else {
          MovesOrStays(decode, w);
          RoundKeepsBooksIff(decode, w);
          assert PassedOver(decode, w) == [];
        }
      }
  }

  /** Exactly once across the daily rollover: over every run the events returned, those still
      ahead in the followed file and those of the newer file are exactly the events of all
      complete lines since the first contact, in order; a failed save only means reading again. */
  lemma {:induction false} ExactlyOnce(decode: Decoder, w: World, steps: seq<Step>)
    requires PositionOk(w) && Balanced(decode, w) && KeepsUp(w) && RunOk(decode, w, steps)
    ensures var w' := Run(decode, w, steps); PositionOk(w') && Balanced(decode, w') && KeepsUp(w')
    decreases |steps|
  {
    if steps != [] {
      StepKeepsBooks(decode, w, steps[0]);
      ExactlyOnce(decode, Next(decode, w, steps[0]), steps[1..]);
    }
  }

  /** When a day's file is followed to its end, everything written since the first contact
      has been returned. */
  lemma CaughtUpReturnsAll(decode: Decoder, w: World)
    requires PositionOk(w) && Balanced(decode, w) && w.state.Some?
    requires w.at + 1 == |w.files| && !HasLine(w.files[w.at].data, w.state.value.offset, false)
    ensures w.returned == FileEvents(decode, w.files, w.first, |w.files|)
  {
    ConcatEmpty(w.returned);
    assert Ahead(decode, w) == [];
    assert FileEvents(decode, w.files, w.at + 1, |w.files|) == [];
  }

  // ----- a day that is passed over -----

  lemma NothingInNothing(decode: Decoder, maxEvents: int)
    ensures ReadFrom(decode, [], 0, maxEvents) == (0, [])
  {
  }

  /** A collector at the start of its newest file, which is still empty, stays where it is. */
  lemma {:induction false} RoundsStay(decode: Decoder, w: World, rounds: seq<Step>)
    requires w.files != [] && w.files[|w.files| - 1].data == [] && w.at == |w.files| - 1
    requires w.state == Some(TailState(w.files[|w.files| - 1].name, 0))
    requires forall s :: s in rounds ==> s.Round?
    ensures Run(decode, w, rounds) == w
    decreases |rounds|
  {
    if rounds != [] {
      assert rounds[0] in rounds;
      NothingInNothing(decode, MAX_EVENTS_PER_COLLECT);
      ConcatEmpty(w.returned);
      assert Next(decode, w, rounds[0]) == w;
      RoundsStay(decode, w, rounds[1..]);
    }
  }

  /** One line was written to the day in the middle, none to the others; the collector is at
      the start of the first. */
  function MiddleDay(a: string, b: string, c: string, line: Bytes): World
  {
    World([LogFile(a, []), LogFile(b, line), LogFile(c, [])], Some(TailState(a, 0)), 0, 0, [])
  }

  predicate MiddleDayOk(decode: Decoder, a: string, b: string, c: string, line: Bytes)
  {
    && a != "" && b != "" && c != "" && a != b && a != c && b != c
    && HasLine(line, 0, false) && LineEnd(line, 0) == |line| && decode(line).Some?
  }

  lemma MiddleDayEvents(decode: Decoder, a: string, b: string, c: string, line: Bytes)
    requires MiddleDayOk(decode, a, b, c, line)
    ensures var w := MiddleDay(a, b, c, line);
            var evs := [decode(line).value];
            && EventsOf(decode, LinesFrom([], 0, false)) == [] && EventsOf(decode, LinesFrom(line, 0, false)) == evs
            && FileEvents(decode, w.files, 1, 2) == evs && FileEvents(decode, w.files, 1, 3) == evs
            && FileEvents(decode, w.files, 0, 3) == evs
  {
    var files := MiddleDay(a, b, c, line).files;
    var evs := [decode(line).value];
    assert line[0..|line|] == line;
    assert LinesFrom([], 0, false) == [] && LinesFrom(line, |line|, false) == [] && LinesFrom(line, 0, false) == [line];
    assert EventsOf(decode, []) == [] && EventsOf(decode, [line]) == evs;
    hide LinesFrom, EventsOf;
    ConcatEmpty(evs);
    assert FileEvents(decode, files, 1, 1) == [] && FileEvents(decode, files, 0, 0) == [];
    assert FileEvents(decode, files, 1, 2) == evs && FileEvents(decode, files, 0, 1) == [];
    assert FileEvents(decode, files, 0, 2) == evs;
  }

  lemma MiddleDayBooks(decode: Decoder, a: string, b: string, c: string, line: Bytes)
    requires MiddleDayOk(decode, a, b, c, line)
    ensures var w := MiddleDay(a, b, c, line);
            && PositionOk(w) && Balanced(decode, w) && MovesOn(decode, w)
                && PassedOver(decode, w) == [decode(line).value]
  {
    var w := MiddleDay(a, b, c, line);
    MiddleDayEvents(decode, a, b, c, line);
    NothingInNothing(decode, MAX_EVENTS_PER_COLLECT);
    assert PositionOk(w);
    hide FileEvents, LinesFrom, EventsOf, ReadFrom, StopAt;
    ConcatEmpty([decode(line).value]);
  }

  /** What happens before any round sees it: a new day, one line, and the next day. */
  lemma MiddleDayComesAbout(decode: Decoder, a: string, b: string, c: string, line: Bytes)
    requires MiddleDayOk(decode, a, b, c, line)
    ensures var w0 := World([LogFile(a, [])], Some(TailState(a, 0)), 0, 0, []);
            var w1 := Next(decode, w0, NewDay(b));
            var w2 := Next(decode, w1, Write(line));
            && StepOk(w0, NewDay(b)) && StepOk(w1, Write(line)) && StepOk(w2, NewDay(c))
            && Next(decode, w2, NewDay(c)) == MiddleDay(a, b, c, line)
  {
    var w0 := World([LogFile(a, [])], Some(TailState(a, 0)), 0, 0, []);
    var w1 := w0.(files := [LogFile(a, []), LogFile(b, [])]);
    var w2 := w0.(files := [LogFile(a, []), LogFile(b, line)]);
    ConcatEmpty(line);
    assert [LogFile(a, [])] + [LogFile(b, [])] == w1.files && w1.files[1 := LogFile(b, line)] == w2.files;
    assert w2.files + [LogFile(c, [])] == MiddleDay(a, b, c, line).files;
    assert Next(decode, w0, NewDay(b)) == w1 && Next(decode, w1, Write(line)) == w2;
  }

  /** A run that RoundKeepsBooksIff rules out, and that MiddleDayComesAbout reaches: the line's
      event is ahead, but neither the next round nor any later one returns it. */
  lemma MiddleDayIsLost(decode: Decoder, a: string, b: string, c: string, line: Bytes, later: seq<Step>)
    requires MiddleDayOk(decode, a, b, c, line) && forall s :: s in later ==> s.Round?
    ensures var w := MiddleDay(a, b, c, line);
            && PositionOk(w) && Balanced(decode, w) && PassedOver(decode, w) == [decode(line).value]
            && Run(decode, Next(decode, w, Round(false)), later).returned == []
  {
    var w := MiddleDay(a, b, c, line);
    MiddleDayBooks(decode, a, b, c, line);
    NothingInNothing(decode, MAX_EVENTS_PER_COLLECT);
    hide FileEvents, LinesFrom, EventsOf, ReadFrom, StopAt, PositionOk, Balanced, MovesOn, PassedOver;
    assert Find(w.files, a) == Some([]);
    var w' := Next(decode, w, Round(false));
    assert w'.state == Some(TailState(c, 0)) && w'.at == 2 && w'.returned == [] && w'.files == w.files;
    RoundsStay(decode, w', later);
  }
}
