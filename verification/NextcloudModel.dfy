/** The Nextcloud log tailer on values: what one reading pass computes.

    A file's head fingerprint (SHA-256 of at most 512 leading bytes) is modelled
    as those bytes themselves, that is, as a collision-free digest. JSON decoding,
    time conversion and JSON encoding are the parameters of a `Codec`. */
module NextcloudModel {
  import opened Basics
  import opened Lines

  const HEAD_FINGERPRINT_BYTES: nat := 512
  const MAX_RESULT_JSON_BYTES: nat := 512 * 1024
  const MAX_RESULT_EVENTS: nat := 1000

  // ----- events -----

  /** The fields of one decoded log line that the tailer uses. */
  datatype RawRecord = RawRecord(reqId: string, time: string, level: int, remoteAddr: string, user: string,
                                 message: string, app: string, url: string, httpMethod: string,
                                 userAgent: string, exception: Option<string>)

  datatype NCEvent = NCEvent(ts: string, source: string, level: string, user: string, ip: string,
                             msg: string, app: string, reqId: string, url: string, httpMethod: string,
                             userAgent: string, exception: Option<string>)

  /** `decode` covers trimming and JSON parsing, `encode` the JSON of one event. */
  datatype Codec = Codec(decode: Bytes -> Option<RawRecord>, timestamp: string -> string, encode: NCEvent -> Bytes)

  function LevelName(level: int): string
  {
    match level
    case 0 => "debug"
    case 1 => "info"
    case 2 => "warning"
    case 3 => "error"
    case 4 => "fatal"
    case _ => "info"
  }

  function ParseLine(k: Codec, line: Bytes, source: string): (r: Option<NCEvent>)
    ensures r.Some? ==> r.value.source == source
  {
    match k.decode(line)
    case None => None
    case Some(raw) =>
      Some(NCEvent(k.timestamp(raw.time), source, LevelName(raw.level), raw.user, raw.remoteAddr, raw.message,
                   if raw.app == "" then "core" else raw.app, raw.reqId, raw.url, raw.httpMethod,
                   raw.userAgent, raw.exception))
  }

  /** A line that decodes becomes an event with its fields; an unknown level counts as info, a
      missing app as core. Every other line is none. */
  lemma EventOfLine(k: Codec, line: Bytes, source: string)
    ensures ParseLine(k, line, source).None? <==> k.decode(line).None?
    ensures k.decode(line).Some? ==>
              var raw, ev := k.decode(line).value, ParseLine(k, line, source).value;
              && ev.ts == k.timestamp(raw.time) && ev.source == source && ev.msg == raw.message
              && ev.user == raw.user && ev.ip == raw.remoteAddr && ev.reqId == raw.reqId && ev.url == raw.url
              && ev.httpMethod == raw.httpMethod && ev.userAgent == raw.userAgent && ev.exception == raw.exception
              && (if raw.app == "" then ev.app == "core" else ev.app == raw.app)
              && (if 0 <= raw.level <= 4 then ev.level == ["debug", "info", "warning", "error", "fatal"][raw.level]
                  else ev.level == "info")
  {
  }

  /** One event costs its JSON plus a separator. */
  function Cost(k: Codec, ev: NCEvent): nat { |k.encode(ev)| + 1 }

  function TotalCost(k: Codec, evs: seq<NCEvent>): nat
  {
    if evs == [] then 0 else Cost(k, evs[0]) + TotalCost(k, evs[1..])
  }

  /** The event of a line that some round can send: parsable and not oversize. */
  function Deliverable(k: Codec, source: string, max: nat, line: Bytes): Option<NCEvent>
  {
    match ParseLine(k, line, source)
    case None => None
    case Some(ev) => if Cost(k, ev) > max then None else Some(ev)
  }

  /** The events that the lines `ls` stand for. */
  function Harvest(k: Codec, source: string, max: nat, ls: seq<Bytes>): (evs: seq<NCEvent>)
    ensures forall ev :: ev in evs ==> ev.source == source
  {
    if ls == [] then []
    else
      (match Deliverable(k, source, max, ls[0])
       case None => []
       case Some(ev) => [ev])
      + Harvest(k, source, max, ls[1..])
  }

  /** How many of the lines `ls` hold an event too large for any round. */
  function OversizeCount(k: Codec, source: string, max: nat, ls: seq<Bytes>): nat
  {
    if ls == [] then 0
    else
      (match ParseLine(k, ls[0], source)
       case None => 0
       case Some(ev) => if Cost(k, ev) > max then 1 else 0)
      + OversizeCount(k, source, max, ls[1..])
  }

  lemma {:induction false} HarvestConcat(k: Codec, source: string, max: nat, a: seq<Bytes>, b: seq<Bytes>)
    ensures Harvest(k, source, max, a + b) == Harvest(k, source, max, a) + Harvest(k, source, max, b)
  {
    if a == [] {
      ConcatEmpty(b);
    } else {
      assert (a + b)[1..] == a[1..] + b;
      HarvestConcat(k, source, max, a[1..], b);
      var d := Deliverable(k, source, max, a[0]);
      hide Deliverable;
      ConcatAssoc(if d.Some? then [d.value] else [], Harvest(k, source, max, a[1..]), Harvest(k, source, max, b));
    }
  }

  lemma {:induction false} OversizeConcat(k: Codec, source: string, max: nat, a: seq<Bytes>, b: seq<Bytes>)
    ensures OversizeCount(k, source, max, a + b) == OversizeCount(k, source, max, a) + OversizeCount(k, source, max, b)
  {
    if a == [] {
      ConcatEmpty(b);
    } else {
      assert (a + b)[1..] == a[1..] + b;
      hide ParseLine;
      OversizeConcat(k, source, max, a[1..], b);
    }
  }

  lemma {:induction false} TotalCostConcat(k: Codec, a: seq<NCEvent>, b: seq<NCEvent>)
    ensures TotalCost(k, a + b) == TotalCost(k, a) + TotalCost(k, b)
  {
    if a == [] {
      assert a + b == b;
    } else {
      assert (a + b)[1..] == a[1..] + b;
      TotalCostConcat(k, a[1..], b);
    }
  }

  // ----- budget and quota -----

  /** What is left of the round's budget and of one source's quota. */
  datatype Meter = Meter(remaining: nat, events: nat, max: nat, share: int, quota: int, taken: nat)

  /** `take` accepts: the budget allows it, and the quota does or this is the source's first event. */
  predicate Takes(m: Meter, cost: nat)
  {
    cost <= m.remaining && m.events > 0 && (m.taken == 0 || (cost <= m.share && m.quota > 0))
  }

  function Charge(m: Meter, cost: nat): Meter
    requires Takes(m, cost)
  {
    Meter(m.remaining - cost, m.events - 1, m.max, m.share - cost, m.quota - 1, m.taken + 1)
  }

  /** A source gets an n-th of what is left as its quota. */
  function WithQuota(m: Meter, n: nat): Meter
    requires n > 0
  {
    m.(share := m.remaining / n, quota := m.events / n, taken := 0)
  }

  // ----- reading one file -----

  datatype ScanResult = ScanResult(offset: nat, more: bool, events: seq<NCEvent>, skipped: nat, meter: Meter)

  /** What one line does to a reader: it stops it, or passes and yields at most one event. */
  datatype LineResult = Blocked | Passed(events: seq<NCEvent>, skipped: nat, meter: Meter)

  function LineStep(k: Codec, source: string, line: Bytes, m: Meter): LineResult
  {
    match ParseLine(k, line, source)
    case None => Passed([], 0, m)
    case Some(ev) =>
      if Cost(k, ev) > m.max then Passed([], 1, m)
      else if !Takes(m, Cost(k, ev)) then Blocked
      else Passed([ev], 0, Charge(m, Cost(k, ev)))
  }

  /** Events and skips found earlier put in front of what a later scan found. */
  function Resumed(events: seq<NCEvent>, skipped: nat, r: ScanResult): ScanResult
  {
    r.(events := events + r.events, skipped := skipped + r.skipped)
  }

  lemma ResumedTwice(events: seq<NCEvent>, skipped: nat, events': seq<NCEvent>, skipped': nat, r: ScanResult)
    ensures Resumed(events, skipped, Resumed(events', skipped', r)) == Resumed(events + events', skipped + skipped', r)
  {
    ConcatAssoc(events, events', r.events);
  }

  /** What `readFrom` computes: line after line until the input or the meter runs out. */
  function Scan(k: Codec, source: string, s: Bytes, i: nat, final: bool, m: Meter): (r: ScanResult)
    ensures r.offset >= i
    ensures i <= |s| ==> r.offset <= |s|
    decreases |s| - i
  {
    if !HasLine(s, i, final) then
      ScanResult(i, false, [], 0, m)
    else
      match LineStep(k, source, s[i..LineEnd(s, i)], m)
      case Blocked => ScanResult(i, true, [], 0, m)
      case Passed(evs, skipped, m') => Resumed(evs, skipped, Scan(k, source, s, LineEnd(s, i), final, m'))
  }

  /** The whole scan, for a loop that has found `events` and arrived at offset `i`. */
  function ScanFrom(k: Codec, source: string, s: Bytes, i: nat, final: bool, m: Meter, events: seq<NCEvent>,
                    skipped: nat)
    : ScanResult
  {
    Resumed(events, skipped, Scan(k, source, s, i, final, m))
  }

  lemma ScanStops(k: Codec, source: string, s: Bytes, i: nat, final: bool, m: Meter, events: seq<NCEvent>, skipped: nat)
    requires !HasLine(s, i, final) || LineStep(k, source, s[i..LineEnd(s, i)], m).Blocked?
    ensures ScanFrom(k, source, s, i, final, m, events, skipped)
         == ScanResult(i, HasLine(s, i, final), events, skipped, m)
  {
    ConcatEmpty(events);
  }

  lemma ScanGoesOn(k: Codec, source: string, s: Bytes, i: nat, final: bool, m: Meter, events: seq<NCEvent>,
                   skipped: nat,
                   evs: seq<NCEvent>, n: nat, m': Meter)
    requires HasLine(s, i, final) && LineStep(k, source, s[i..LineEnd(s, i)], m) == Passed(evs, n, m')
    ensures ScanFrom(k, source, s, i, final, m, events, skipped)
         == ScanFrom(k, source, s, LineEnd(s, i), final, m', events + evs, skipped + n)
  {
    ResumedTwice(events, skipped, evs, n, Scan(k, source, s, LineEnd(s, i), final, m'));
  }

  lemma BetweenUnfold(k: Codec, source: string, max: nat, s: Bytes, i: nat, j: nat)
    requires i < j && i < |s|
    ensures var rest := LinesBetween(s, LineEnd(s, i), j);
            var line := s[i..LineEnd(s, i)];
            && LinesBetween(s, i, j) == [line] + rest
            && Harvest(k, source, max, LinesBetween(s, i, j))
               == (match Deliverable(k, source, max, line) case None => [] case Some(ev) => [ev])
                   + Harvest(k, source, max, rest)
            && OversizeCount(k, source, max, LinesBetween(s, i, j))
               == (match ParseLine(k, line, source) case None => 0 case Some(ev) => if Cost(k, ev) > max then 1 else 0)
                  + OversizeCount(k, source, max, rest)
  {
    assert LinesBetween(s, i, j)[1..] == LinesBetween(s, LineEnd(s, i), j);
  }

  /** Reading is lossless: the lines up to the returned offset are exactly the ones
      consumed, they carry exactly the returned events, and the rest is still ahead. */
  lemma {:induction false} ScanConsumes(k: Codec, source: string, s: Bytes, i: nat, final: bool, m: Meter)
    requires i <= |s|
    ensures var r := Scan(k, source, s, i, final, m);
            && LinesFrom(s, i, final) == LinesBetween(s, i, r.offset) + LinesFrom(s, r.offset, final)
            && StopAt(s, r.offset, final) == StopAt(s, i, final)
            && r.events == Harvest(k, source, m.max, LinesBetween(s, i, r.offset))
            && r.skipped == OversizeCount(k, source, m.max, LinesBetween(s, i, r.offset))
            && (!r.more ==> r.offset == StopAt(s, i, final))
    decreases |s| - i
  {
    if HasLine(s, i, final) {
      var e := LineEnd(s, i);
      var step := LineStep(k, source, s[i..e], m);
      if step.Passed? {
        var r := Scan(k, source, s, e, final, step.meter);
        ScanConsumes(k, source, s, e, final, step.meter);
        BetweenUnfold(k, source, m.max, s, i, r.offset);
        ConcatAssoc([s[i..e]], LinesBetween(s, e, r.offset), LinesFrom(s, r.offset, final));
      }
    }
  }

  lemma LineStepConserves(k: Codec, source: string, line: Bytes, m: Meter)
    ensures var step := LineStep(k, source, line, m);
            step.Passed? ==>
              && step.meter.max == m.max
              && step.meter.remaining + TotalCost(k, step.events) == m.remaining
              && step.meter.events + |step.events| == m.events
              && step.meter.share + TotalCost(k, step.events) == m.share
              && step.meter.quota + |step.events| == m.quota
              && step.meter.taken == m.taken + |step.events|
  {
    var step := LineStep(k, source, line, m);
    if step.Passed? && step.events != [] {
      assert TotalCost(k, step.events) == Cost(k, step.events[0]) + TotalCost(k, step.events[1..]);
    }
    hide ParseLine;
  }

  /** Nothing is charged but the returned events. */
  lemma {:induction false} ScanConserves(k: Codec, source: string, s: Bytes, i: nat, final: bool, m: Meter)
    ensures var r := Scan(k, source, s, i, final, m);
            && r.meter.max == m.max
            && r.meter.remaining + TotalCost(k, r.events) == m.remaining
            && r.meter.events + |r.events| == m.events
            && r.meter.share + TotalCost(k, r.events) == m.share
            && r.meter.quota + |r.events| == m.quota
            && r.meter.taken == m.taken + |r.events|
    decreases |s| - i
  {
    if HasLine(s, i, final) {
      var e := LineEnd(s, i);
      var step := LineStep(k, source, s[i..e], m);
      if step.Passed? {
        hide LineStep, TotalCost;
        var r := Scan(k, source, s, e, final, step.meter);
        LineStepConserves(k, source, s[i..e], m);
        ScanConserves(k, source, s, e, final, step.meter);
        TotalCostConcat(k, step.events, r.events);
      }
    }
  }

  /** A stopped reader really is stuck: its next line holds an event that the meter refuses. */
  lemma {:induction false} ScanStuck(k: Codec, source: string, s: Bytes, i: nat, final: bool, m: Meter)
    ensures var r := Scan(k, source, s, i, final, m);
            r.more ==> HasLine(s, r.offset, final)
                       && LineStep(k, source, s[r.offset..LineEnd(s, r.offset)], r.meter).Blocked?
    decreases |s| - i
  {
    if HasLine(s, i, final) {
      var step := LineStep(k, source, s[i..LineEnd(s, i)], m);
      if step.Passed? {
        ScanStuck(k, source, s, LineEnd(s, i), final, step.meter);
      }
    }
  }

  // ----- the recorded position of one source -----

  datatype File = Regular(inode: nat, data: Bytes) | Directory

  type Snapshot = map<string, File>

  function Lookup(snap: Snapshot, path: string): Option<File>
  {
    if path in snap then Some(snap[path]) else None
  }

  datatype PrevState = PrevState(path: string, offset: nat, inode: nat, head: Bytes)

  datatype Cursor = Cursor(path: string, offset: nat, inode: nat, head: Bytes, prev: Option<PrevState>)

  function Fingerprint(data: Bytes): (h: Bytes)
    ensures h <= data
    ensures |h| <= HEAD_FINGERPRINT_BYTES
  {
    data[..if |data| < HEAD_FINGERPRINT_BYTES then |data| else HEAD_FINGERPRINT_BYTES]
  }

  predicate HeadMatches(h: Bytes, data: Bytes) { h <= data }

  /** The three signs of a rotation: the file shrank, its head differs, its inode differs. */
  predicate Rotated(c: Cursor, inode: nat, data: Bytes)
  {
    || |data| < c.offset
    || !HeadMatches(c.head, data)
    || (c.inode != 0 && inode != 0 && inode != c.inode)
  }

  /** `<path>.1` is the file that was being read, or its copy. */
  predicate PrevIsOldFile(c: Cursor, curInode: nat, prevInode: nat, prevData: Bytes)
  {
    if |prevData| < c.offset then false
    else if |c.head| > 0 then HeadMatches(c.head, prevData)
    else !(c.inode != 0 && prevInode != 0 && prevInode != c.inode && curInode != c.inode)
  }

  /** First contact: go to the end of the last line, or to 0 when there is no file yet. */
  function FirstContact(path: string, file: Option<File>): Cursor
    requires file.Some? ==> file.value.Regular?
  {
    match file
    case None => Cursor(path, 0, 0, [], None)
    case Some(f) => Cursor(path, LastLineEnd(f.data), f.inode, Fingerprint(f.data), None)
  }

  /** Bring the recorded position in line with the files found now. */
  function Reconcile(c: Cursor, file: Option<File>, dot1: Option<File>): Cursor
    requires file.Some? ==> file.value.Regular?
  {
    match file
    case None => c
    case Some(f) =>
      var c1 :=
        if Rotated(c, f.inode, f.data) then
          var prev :=
            if dot1.Some? && dot1.value.Regular? && PrevIsOldFile(c, f.inode, dot1.value.inode, dot1.value.data) then
              Some(PrevState(c.path + ".1", c.offset, dot1.value.inode, c.head))
            else
              None;
          Cursor(c.path, 0, c.inode, [], prev)
        else c;
      Cursor(c1.path, c1.offset, f.inode,
             if |c1.head| < HEAD_FINGERPRINT_BYTES && |f.data| > |c1.head| then Fingerprint(f.data) else c1.head,
             c1.prev)
  }

  /** The half-read `.1` is still the file it was. */
  predicate PrevValid(p: PrevState, file: Option<File>)
  {
    && file.Some? && file.value.Regular?
    && |file.value.data| >= p.offset
    && !(p.inode != 0 && file.value.inode != 0 && file.value.inode != p.inode)
    && HeadMatches(p.head, file.value.data)
  }

  datatype SourceResult = SourceResult(cursor: Cursor, events: seq<NCEvent>, skipped: nat, truncated: bool,
                                       meter: Meter)

  function DrainCurrent(k: Codec, source: string, c: Cursor, file: Option<File>, m: Meter): SourceResult
    requires file.Some? ==> file.value.Regular?
  {
    match file
    case None => SourceResult(c, [], 0, false, m)
    case Some(f) =>
      var r := Scan(k, source, f.data, c.offset, false, m);
      SourceResult(c.(offset := r.offset), r.events, r.skipped, r.more, r.meter)
  }

  /** Read the rest of `.1` first, then the current file. */
  function Drain(k: Codec, source: string, c: Cursor, snap: Snapshot, file: Option<File>, m: Meter): SourceResult
    requires file.Some? ==> file.value.Regular?
  {
    match c.prev
    case None => DrainCurrent(k, source, c, file, m)
    case Some(p) =>
      var pf := Lookup(snap, p.path);
      if !PrevValid(p, pf) then
        DrainCurrent(k, source, c.(prev := None), file, m)
      else
        var r := Scan(k, source, pf.value.data, p.offset, true, m);
        if r.more then
          SourceResult(c.(prev := Some(p.(offset := r.offset))), r.events, r.skipped, true, r.meter)
        else
          var d := DrainCurrent(k, source, c.(prev := None), file, r.meter);
          d.(events := r.events + d.events, skipped := r.skipped + d.skipped)
  }

  predicate FirstRun(c: Option<Cursor>, path: string) { c.None? || c.value.path != path }

  /** What `readSource` computes; None is its error for a directory. */
  function ReadSource(k: Codec, source: string, c: Option<Cursor>, path: string, snap: Snapshot, m: Meter)
    : Option<SourceResult>
  {
    var file := Lookup(snap, path);
    if file.Some? && file.value.Directory? then None
    else if FirstRun(c, path) then
      Some(SourceResult(FirstContact(path, file), [], 0, false, m))
    else
      Some(Drain(k, source, Reconcile(c.value, file, Lookup(snap, path + ".1")), snap, file, m))
  }

  // ----- one round over both sources -----

  datatype Mark = Mark(size: nat, head: Bytes)

  /** The state file: both positions, the round counter and the undo mark. */
  datatype State = State(app: Option<Cursor>, audit: Option<Cursor>, round: nat, appending: Option<Mark>)

  /** `pathJson` is the length of the jsonl path as a JSON string, quotes included. */
  datatype Config = Config(nextcloudLog: string, ncAuditLog: string, pathJson: nat)

  datatype CollectResult = CollectResult(newEvents: nat, events: seq<NCEvent>, truncated: bool, skippedOversize: nat)

  function Digits(n: nat): nat { if n < 10 then 1 else 1 + Digits(n / 10) }

  function SumEncoded(k: Codec, evs: seq<NCEvent>): nat
  {
    if evs == [] then 0 else |k.encode(evs[0])| + SumEncoded(k, evs[1..])
  }

  /** Bytes of a result as JSON; empty `events`, false and 0 are left out. */
  function JsonSize(k: Codec, cfg: Config, r: CollectResult): nat
  {
    |"{\"new_events\":"| + Digits(r.newEvents)
    + |",\"jsonl_path\":"| + cfg.pathJson
    + (if r.events == [] then 0 else |",\"events\":[]"| + SumEncoded(k, r.events) + (|r.events| - 1))
    + (if r.truncated then |",\"truncated\":true"| else 0)
    + (if r.skippedOversize == 0 then 0 else |",\"skipped_oversize\":"| + Digits(r.skippedOversize))
    + |"}"|
  }

  /** The envelope as `newBudget` measures it, with the largest counters it expects. */
  function EnvelopeSize(k: Codec, cfg: Config): nat
  {
    JsonSize(k, cfg, CollectResult(0x4000_0000, [], true, 0x4000_0000))
  }

  predicate EnvelopeFits(k: Codec, cfg: Config)
  {
    EnvelopeSize(k, cfg) + |",\"events\":[]"| <= MAX_RESULT_JSON_BYTES
  }

  function NewMeter(k: Codec, cfg: Config): Meter
  {
    var n := if EnvelopeFits(k, cfg) then MAX_RESULT_JSON_BYTES - EnvelopeSize(k, cfg) - |",\"events\":[]"| else 0;
    Meter(n, MAX_RESULT_EVENTS, n, 0, 0, 0)
  }

  function NextRound(round: nat): nat { (round + 1) % 0x1_0000_0000_0000_0000 }

  /** Both sources read, in the order this round calls for. */
  datatype Reading = Reading(app: SourceResult, audit: SourceResult)
  {
    function Result(): CollectResult
    {
      CollectResult(|app.events + audit.events|, app.events + audit.events,
                    app.truncated || audit.truncated, app.skipped + audit.skipped)
    }

    function NextState(round: nat): State
    {
      State(Some(app.cursor), Some(audit.cursor), NextRound(round), None)
    }
  }

  /** Two sources one after the other: half of the budget is the first one's quota, all
      that is left is the second one's. */
  function ReadPair(k: Codec, snap: Snapshot, m: Meter, name1: string, path1: string, c1: Option<Cursor>,
                    name2: string, path2: string, c2: Option<Cursor>): Option<(SourceResult, SourceResult)>
  {
    match ReadSource(k, name1, c1, path1, snap, WithQuota(m, 2))
    case None => None
    case Some(r1) =>
      match ReadSource(k, name2, c2, path2, snap, WithQuota(r1.meter, 1))
      case None => None
      case Some(r2) => Some((r1, r2))
  }

  /** Both sources, in the order that this round calls for. */
  function ReadBoth(k: Codec, cfg: Config, snap: Snapshot, st: State): Option<Reading>
  {
    if st.round % 2 == 1 then
      match ReadPair(k, snap, NewMeter(k, cfg), "audit", cfg.ncAuditLog, st.audit, "app", cfg.nextcloudLog, st.app)
      case None => None
      case Some(r) => Some(Reading(r.1, r.0))
    else
      match ReadPair(k, snap, NewMeter(k, cfg), "app", cfg.nextcloudLog, st.app, "audit", cfg.ncAuditLog, st.audit)
      case None => None
      case Some(r) => Some(Reading(r.0, r.1))
  }
}
