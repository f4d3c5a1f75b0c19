/** The receiver's store: an append-only log of reports per agent and day, and an index of
    the agents' latest state that is kept in step with it. */
module ReceiverStore {
  import opened Basics
  import opened Lines
  import opened ReportFiles

  /** Nanoseconds since the zero time; 0 is the zero value, "never". */
  type Time = nat

  datatype NotifyState = NotifyNone | NotifyDown | NotifyUp

  datatype Record = Record(agentID: string, agentLabel: string, agentType: string, reportedAt: string,
                           collectors: Option<map<string, string>>)

  datatype Disk = Disk(usePercent: string, mounted: string)
  datatype Load = Load(load1: Option<real>, load5: Option<real>, load15: Option<real>)

  /** JSON decoding of the three collectors that the summary looks at, and encoding of a record. */
  datatype Codec = Codec(host: string -> Option<string>, disks: string -> Option<seq<Disk>>,
                         load: string -> Option<Load>, encode: Record -> Bytes)

  datatype AgentState = AgentState(agentID: string, agentLabel: string, agentType: string, lastSeen: Time,
                                   reportedAt: string, hostname: string, rootDiskPercent: string,
                                   load1: real, load5: real, load15: real, hasLoad: bool,
                                   down: bool, downSince: Time, notified: NotifyState)

  function Blank(id: string, displayName: string): AgentState
  {
    AgentState(id, displayName, "", 0, "", "", "", 0.0, 0.0, 0.0, false, false, 0, NotifyNone)
  }

  // ----- what a report tells about its agent -----

  function RootDisk(disks: seq<Disk>): Option<string>
  {
    if disks == [] then None
    else if disks[0].mounted == "/" then Some(disks[0].usePercent)
    else RootDisk(disks[1..])
  }

  function ApplyHost(d: Codec, st: AgentState, cs: map<string, string>): AgentState
  {
    if "host" !in cs then st
    else
      var h := d.host(cs["host"]);
      if h.Some? && h.value != "" then st.(hostname := h.value) else st
  }

  function ApplyDisk(d: Codec, st: AgentState, cs: map<string, string>): AgentState
  {
    if "disk" !in cs then st
    else
      var disks := d.disks(cs["disk"]);
      if disks.None? then st
      else
        var root := RootDisk(disks.value);
        if root.Some? then st.(rootDiskPercent := root.value) else st
  }

  function ApplyLoad(d: Codec, st: AgentState, cs: map<string, string>): AgentState
  {
    if "loadavg" !in cs then st
    else
      var l := d.load(cs["loadavg"]);
      if l.None? || l.value.load1.None? then st
      else
        st.(load1 := l.value.load1.value,
            load5 := if l.value.load5.Some? then l.value.load5.value else st.load5,
            load15 := if l.value.load15.Some? then l.value.load15.value else st.load15,
            hasLoad := true)
  }

  function ApplySummary(d: Codec, st: AgentState, collectors: Option<map<string, string>>): AgentState
  {
    if collectors.None? then st
    else ApplyLoad(d, ApplyDisk(d, ApplyHost(d, st, collectors.value), collectors.value), collectors.value)
  }

  /** One received report, the time it was received and the file it was written to. */
  datatype Entry = Entry(rec: Record, at: Time, file: string)

  function EntryOf(rec: Record, now: Instant): Entry
    requires Nanos(now) >= 0
  {
    Entry(rec, Nanos(now), ReportName(rec.agentID, now.date))
  }

  function Update(d: Codec, st: AgentState, e: Entry): AgentState
  {
    ApplySummary(d, st.(agentLabel := e.rec.agentLabel, agentType := e.rec.agentType, lastSeen := e.at,
                        reportedAt := e.rec.reportedAt), e.rec.collectors)
  }

  /** The first file system mounted at "/" is the root disk. */
  lemma {:induction false} RootDiskIsFirst(disks: seq<Disk>, k: nat)
    requires k <= |disks| && forall j :: 0 <= j < k ==> disks[j].mounted != "/"
    requires k < |disks| ==> disks[k].mounted == "/"
    ensures RootDisk(disks) == if k < |disks| then Some(disks[k].usePercent) else None
  {
    if k > 0 {
      RootDiskIsFirst(disks[1..], k - 1);
    }
  }

  /** What a collector's output decodes to, if it is there. */
  function Decoded<T>(cs: Option<map<string, string>>, name: string, decode: string -> Option<T>): Option<T>
  {
    if cs.Some? && name in cs.value then decode(cs.value[name]) else None
  }

  /** A report updates what it tells about and leaves the rest: an empty host name, disks without
      a root and a load without its first value tell nothing. */
  lemma ReportIsShown(d: Codec, st: AgentState, e: Entry)
    ensures var u := Update(d, st, e);
            var host, disks, load := Decoded(e.rec.collectors, "host", d.host),
                                     Decoded(e.rec.collectors, "disk", d.disks),
                                     Decoded(e.rec.collectors, "loadavg", d.load);
            && u.agentLabel == e.rec.agentLabel && u.agentType == e.rec.agentType
            && u.lastSeen == e.at && u.reportedAt == e.rec.reportedAt
            && u.hostname == (if host.Some? && host.value != "" then host.value else st.hostname)
            && u.rootDiskPercent
               == (if disks.Some? && RootDisk(disks.value).Some? then RootDisk(disks.value).value
                   else st.rootDiskPercent)
            && (if load.Some? && load.value.load1.Some? then
                  && u.hasLoad && u.load1 == load.value.load1.value
                  && u.load5 == load.value.load5.GetOr(st.load5) && u.load15 == load.value.load15.GetOr(st.load15)
                else u.hasLoad == st.hasLoad && u.load1 == st.load1 && u.load5 == st.load5 && u.load15 == st.load15)
  {
  }

  // ----- the store on values -----

  datatype StoreView = StoreView(states: map<string, AgentState>, saved: Option<map<string, Option<AgentState>>>,
                                 files: map<string, Bytes>)

  /** A write that fails leaves the first `written` bytes of the line behind. */
  datatype AppendFault = NoFault | OpenFails | WriteFails(written: nat) | CloseFails | SaveFails

  /** state.json as it is written, and as it is read back: entries without a value or with an
      unusable id are dropped, and the id in the entry follows the key. */
  function SaveStates(states: map<string, AgentState>): map<string, Option<AgentState>>
  {
    map id | id in states :: Some(states[id])
  }

  function LoadStates(saved: Option<map<string, Option<AgentState>>>): map<string, AgentState>
  {
    if saved.None? then map[]
    else
      map id | id in saved.value && saved.value[id].Some? && ValidAgentID(id) ::
        saved.value[id].value.(agentID := id)
  }

  function LineOf(d: Codec, rec: Record): Bytes { d.encode(rec) + [NEWLINE] }

  /** What gets written of a line before the fault, if any. */
  function WrittenOf(line: Bytes, f: AppendFault): Bytes
  {
    if f.WriteFails? && f.written < |line| then line[..f.written] else line
  }

  function Content(files: map<string, Bytes>, name: string): Bytes { if name in files then files[name] else [] }

  /** A file opened for appending is created if need be. */
  function Extended(files: map<string, Bytes>, name: string, bytes: Bytes): map<string, Bytes>
  {
    files[name := Content(files, name) + bytes]
  }

  predicate Accepted(rec: Record, f: AppendFault)
  {
    ValidAgentID(rec.agentID) && (f.NoFault? || f.SaveFails?)
  }

  /** The agents after a report: only an accepted one counts. */
  function StatesAfter(d: Codec, states: map<string, AgentState>, rec: Record, now: Instant, f: AppendFault)
    : map<string, AgentState>
    requires Nanos(now) >= 0
  {
    if !Accepted(rec, f) then states
    else
      var st := if rec.agentID in states then states[rec.agentID] else Blank(rec.agentID, "");
      states[rec.agentID := Update(d, st, EntryOf(rec, now))]
  }

  /** The report files after it: whatever was written stays, and only a report that was accepted
      and saved is followed by the clean-up. */
  function FilesAfter(d: Codec, files: map<string, Bytes>, rec: Record, now: Instant, retentionDays: int,
                      f: AppendFault)
    : map<string, Bytes>
  {
    if !ValidAgentID(rec.agentID) || f.OpenFails? then files
    else
      var written := Extended(files, ReportName(rec.agentID, now.date), WrittenOf(LineOf(d, rec), f));
      if f.NoFault? then Cleaned(written, now, retentionDays) else written
  }

  function AppendTo(d: Codec, v: StoreView, rec: Record, now: Instant, retentionDays: int,
                    f: AppendFault): (StoreView, bool)
    requires Nanos(now) >= 0
  {
    var states, ok := StatesAfter(d, v.states, rec, now, f), ValidAgentID(rec.agentID) && f.NoFault?;
    (StoreView(states, if ok then Some(SaveStates(states)) else v.saved,
               FilesAfter(d, v.files, rec, now, retentionDays, f)), ok)
  }

  function SetLivenessOf(v: StoreView, id: string, down: bool, downSince: Time, notified: NotifyState,
                         saveFails: bool): StoreView
  {
    if id !in v.states then v
    else
      var states := v.states[id := v.states[id].(down := down, downSince := downSince, notified := notified)];
      v.(states := states, saved := if saveFails then v.saved else Some(SaveStates(states)))
  }

  function EnsureIn(v: StoreView, id: string, displayName: string, saveFails: bool): StoreView
  {
    if !ValidAgentID(id) || id in v.states then v
    else
      var states := v.states[id := Blank(id, displayName)];
      v.(states := states, saved := if saveFails then v.saved else Some(SaveStates(states)))
  }

  /** An append succeeds exactly without a fault. A fault up to the close leaves index and
      state.json alone, one in the save only state.json, and no fault ever deletes a report or
      cuts one: at most a part of the new line is left behind. */
  lemma AppendOutcome(d: Codec, v: StoreView, rec: Record, now: Instant, retentionDays: int, f: AppendFault)
    requires Nanos(now) >= 0
    ensures var (v', ok) := AppendTo(d, v, rec, now, retentionDays, f);
            var name, line := ReportName(rec.agentID, now.date), d.encode(rec) + [NEWLINE];
            && (ok <==> ValidAgentID(rec.agentID) && f == NoFault)
            && (!ValidAgentID(rec.agentID) || f == OpenFails ==> v' == v)
            && (f.WriteFails? || f == CloseFails ==> v'.states == v.states && v'.saved == v.saved)
            && (f == SaveFails ==> v'.saved == v.saved)
            && (f != NoFault ==> forall n :: n != name ==> (n in v'.files <==> n in v.files)
                                                           && (n in v.files ==> v'.files[n] == v.files[n]))
            && (ValidAgentID(rec.agentID) && f != NoFault && f != OpenFails ==>
                  && name in v'.files
                  && v'.files[name] == (if name in v.files then v.files[name] else [])
                                       + (if f.WriteFails? && f.written < |line| then line[..f.written] else line))
            && (ValidAgentID(rec.agentID) && (f == NoFault || f == SaveFails) ==>
                  && rec.agentID in v'.states && v'.states[rec.agentID].lastSeen == Nanos(now)
                  && v'.states.Keys == v.states.Keys + {rec.agentID}
                  && forall id :: id in v.states && id != rec.agentID ==> v'.states[id] == v.states[id])
  {
    hide Expired, ReportName, ValidAgentID, ApplySummary, Decoded, RootDisk;
    var e := EntryOf(rec, now);
    var st := if rec.agentID in v.states then v.states[rec.agentID] else Blank(rec.agentID, "");
    ReportIsShown(d, st, e);
  }

  /** A configured agent is listed before its first report: never seen, not down, nothing
      notified. One that is known already, or whose id is unusable, is left alone. */
  lemma EnsuredIsListed(v: StoreView, id: string, displayName: string, saveFails: bool)
    ensures var v' := EnsureIn(v, id, displayName, saveFails);
            && (id in v'.states <==> id in v.states || ValidAgentID(id))
            && (id in v.states || !ValidAgentID(id) ==> v' == v)
            && (id !in v.states && ValidAgentID(id) ==>
                  var st := v'.states[id];
                  && v'.states == v.states[id := st] && v'.files == v.files
                  && st.agentID == id && st.agentLabel == displayName && st.lastSeen == 0
                  && !st.down && st.downSince == 0 && st.notified == NotifyNone && !st.hasLoad
                  && st.agentType == st.reportedAt == st.hostname == st.rootDiskPercent == "")
  {
  }

  // ----- agents in order -----

  /** Every key is a usable id, and its entry's own. */
  predicate Keyed(states: map<string, AgentState>)
  {
    forall id :: id in states ==> ValidAgentID(id) && states[id].agentID == id
  }

  /** The order of strings. */
  predicate Before(a: string, b: string)
  {
    b != "" && (a == "" || a[0] < b[0] || (a[0] == b[0] && Before(a[1..], b[1..])))
  }

  lemma {:induction false} BeforeIsTotal(a: string, b: string)
    ensures a == b || Before(a, b) || Before(b, a)
    ensures !(Before(a, b) && (a == b || Before(b, a)))
  {
    if a != "" && b != "" {
      BeforeIsTotal(a[1..], b[1..]);
      assert a == [a[0]] + a[1..] && b == [b[0]] + b[1..];
    }
  }

  lemma {:induction false} BeforeIsTransitive(a: string, b: string, c: string)
    requires Before(a, b) && Before(b, c)
    ensures Before(a, c)
  {
    if a != "" && a[0] == b[0] == c[0] {
      BeforeIsTransitive(a[1..], b[1..], c[1..]);
    }
  }

  /** They part at `k`, where `a` has the smaller character. */
  predicate SmallerAt(a: string, b: string, k: nat)
  {
    k < |a| && k < |b| && a[..k] == b[..k] && a[k] < b[k]
  }

  lemma SmallerShifts(a: string, b: string, k: nat)
    requires a != "" && b != "" && a[0] == b[0]
    ensures SmallerAt(a, b, k + 1) <==> SmallerAt(a[1..], b[1..], k)
  {
    if k < |a[1..]| && k < |b[1..]| {
      assert a[..k + 1] == [a[0]] + a[1..][..k] && b[..k + 1] == [b[0]] + b[1..][..k];
      assert a[1..][..k] == a[..k + 1][1..] && b[1..][..k] == b[..k + 1][1..];
    }
  }

  lemma PrefixShifts(a: string, b: string)
    requires a != "" && b != "" && a[0] == b[0]
    ensures a < b <==> a[1..] < b[1..]
  {
    assert a == [a[0]] + a[1..] && b == [b[0]] + b[1..];
  }

  /** One string is before another if it is a proper prefix of it, or smaller where they part. */
  lemma {:induction false} BeforeIsLexicographic(a: string, b: string)
    ensures Before(a, b) <==> a < b || exists k: nat :: SmallerAt(a, b, k)
  {
    if a != "" && b != "" && a[0] == b[0] {
      BeforeIsLexicographic(a[1..], b[1..]);
      PrefixShifts(a, b);
      if k: nat :| SmallerAt(a[1..], b[1..], k) {
        SmallerShifts(a, b, k);
      }
      if k: nat :| SmallerAt(a, b, k) {
        SmallerShifts(a, b, k - 1);
      }
    } else if a != "" && b != "" {
      assert a[..0] == b[..0];
      assert a[0] < b[0] <==> SmallerAt(a, b, 0);
      assert forall k: nat :: SmallerAt(a, b, k) && k > 0 ==> a[..k][0] == b[..k][0];
    }
  }

  predicate ByID(out: seq<AgentState>)
  {
    forall i, j :: 0 <= i < j < |out| ==> Before(out[i].agentID, out[j].agentID)
  }

  /** Every agent's state exactly once, sorted by agent id. */
  predicate Snapshot(out: seq<AgentState>, states: map<string, AgentState>)
  {
    && ByID(out)
    && (forall st :: st in out ==> st.agentID in states && states[st.agentID] == st)
    && (forall id :: id in states ==> states[id].agentID == id && states[id] in out)
  }

  function InsertByID(out: seq<AgentState>, st: AgentState): (r: seq<AgentState>)
    ensures forall x :: x in r <==> x in out || x == st
  {
    if out == [] || Before(st.agentID, out[0].agentID) then [st] + out else [out[0]] + InsertByID(out[1..], st)
  }

  lemma {:induction false} InsertKeepsOrder(out: seq<AgentState>, st: AgentState)
    requires ByID(out) && forall x :: x in out ==> x.agentID != st.agentID
    ensures ByID(InsertByID(out, st))
  {
    if out != [] {
      if Before(st.agentID, out[0].agentID) {
        forall j | 0 < j < |out|
          ensures Before(st.agentID, out[j].agentID)
        {
          BeforeIsTransitive(st.agentID, out[0].agentID, out[j].agentID);
        }
      } else {
        BeforeIsTotal(st.agentID, out[0].agentID);
        var rest := InsertByID(out[1..], st);
        InsertKeepsOrder(out[1..], st);
        assert forall j :: 0 <= j < |rest| ==> rest[j] in out[1..] || rest[j] == st;
      }
    }
  }

  lemma InsertKeepsSnapshot(out: seq<AgentState>, states: map<string, AgentState>, st: AgentState)
    requires Snapshot(out, states) && st.agentID !in states
    ensures Snapshot(InsertByID(out, st), states[st.agentID := st])
  {
    InsertKeepsOrder(out, st);
    hide InsertByID, ByID, Before;
  }

  function Without(states: map<string, AgentState>, ids: set<string>): map<string, AgentState>
  {
    map id | id in states && id !in ids :: states[id]
  }

  lemma OneMoreAgent(out: seq<AgentState>, states: map<string, AgentState>, ids: set<string>, id: string)
    requires Keyed(states) && id in states && id in ids && Snapshot(out, Without(states, ids))
    ensures Snapshot(InsertByID(out, states[id]), Without(states, ids - {id}))
  {
    assert Without(states, ids - {id}) == Without(states, ids)[id := states[id]];
    hide Snapshot, InsertByID;
    InsertKeepsSnapshot(out, Without(states, ids), states[id]);
  }

  // ----- the store itself -----

  class Store {
    const retentionDays: int
    var states: map<string, AgentState>
    var saved: Option<map<string, Option<AgentState>>>
    var files: map<string, Bytes>

    predicate Valid()
      reads this
    {
      Keyed(states)
    }

    /** Opens a data directory: reads state.json if there is one. */
    constructor (retentionDays: int, saved: Option<map<string, Option<AgentState>>>, files: map<string, Bytes>)
      ensures Valid()
      ensures View() == StoreView(LoadStates(saved), saved, files) && this.retentionDays == retentionDays
    {
      this.retentionDays := retentionDays;
      this.states, this.saved, this.files := LoadStates(saved), saved, files;
    }

    function View(): StoreView
      reads this
    {
      StoreView(states, saved, files)
    }

    method Save(saveFails: bool) returns (ok: bool)
      modifies this`saved
      ensures ok == !saveFails
      ensures saved == if saveFails then old(saved) else Some(SaveStates(states))
    {
      if !saveFails {
        saved := Some(SaveStates(states));
      }
      return !saveFails;
    }

    method Append(d: Codec, rec: Record, now: Instant, f: AppendFault) returns (ok: bool)
      requires Valid() && Nanos(now) >= 0
      modifies this
      ensures Valid()
      ensures (View(), ok) == AppendTo(d, old(View()), rec, now, retentionDays, f)
    {
      hide Update, ReportName, LineOf, WrittenOf, Extended, Cleaned, SaveStates;
      if !ValidAgentID(rec.agentID) {
        return false;
      }
      var name := ReportName(rec.agentID, now.date);
      if f.OpenFails? {
        return false;
      }
      files := Extended(files, name, WrittenOf(LineOf(d, rec), f));
      if f.WriteFails? || f.CloseFails? {
        return false;
      }
      ghost var before := states;
      if rec.agentID !in states {
        states := states[rec.agentID := Blank(rec.agentID, "")];
      }
      UpdateIgnoresVerdict(d, states[rec.agentID], EntryOf(rec, now));
      var st := Update(d, states[rec.agentID], EntryOf(rec, now));
      states := states[rec.agentID := st];
      assert states == before[rec.agentID := st];
      ok := Save(f.SaveFails?);
      if ok {
        files := Cleanup(files, now, retentionDays);
      }
    }

    /** Every agent's state exactly once, by agent id; sorting is done while collecting. */
    method States() returns (out: seq<AgentState>)
      requires Valid()
      ensures Snapshot(out, states)
    {
      out := [];
      var ids := states.Keys;
      while ids != {}
        invariant ids <= states.Keys
        invariant Snapshot(out, Without(states, ids))
        decreases |ids|
      {
        hide Snapshot, InsertByID, Without;
        var id :| id in ids;
        OneMoreAgent(out, states, ids, id);
        ids := ids - {id};
        out := InsertByID(out, states[id]);
      }
      assert Without(states, {}) == states;
    }

    method SetLiveness(id: string, down: bool, downSince: Time, notified: NotifyState, saveFails: bool)
      returns (ok: bool)
      requires Valid()
      modifies this
      ensures Valid()
      ensures View() == SetLivenessOf(old(View()), id, down, downSince, notified, saveFails)
      ensures ok == (id in old(states) && !saveFails)
    {
      if id !in states {
        return false;
      }
      states := states[id := states[id].(down := down, downSince := downSince, notified := notified)];
      ok := Save(saveFails);
    }

    method EnsureAgent(id: string, displayName: string, saveFails: bool) returns (ok: bool)
      requires Valid()
      modifies this
      ensures Valid()
      ensures View() == EnsureIn(old(View()), id, displayName, saveFails)
      ensures ok == (ValidAgentID(id) && (id in old(states) || !saveFails))
    {
      if !ValidAgentID(id) {
        return false;
      }
      if id in states {
        return true;
      }
      states := states[id := Blank(id, displayName)];
      ok := Save(saveFails);
    }
  }

  // ----- the index agrees with the log -----

  /** Everything in a state but the verdict about being down. */
  function ReportPart(st: AgentState): AgentState
  {
    st.(down := false, downSince := 0, notified := NotifyNone)
  }

  function EntriesOf(log: seq<Entry>, id: string): seq<Entry>
  {
    if log == [] then []
    else EntriesOf(log[..|log| - 1], id) + (if log[|log| - 1].rec.agentID == id then [log[|log| - 1]] else [])
  }

  function Replay(d: Codec, base: AgentState, entries: seq<Entry>): AgentState
  {
    if entries == [] then base else Update(d, Replay(d, base, entries[..|entries| - 1]), entries[|entries| - 1])
  }

  predicate IsReplay(d: Codec, st: AgentState, base: AgentState, log: seq<Entry>, id: string)
  {
    ReportPart(st) == ReportPart(Replay(d, base, EntriesOf(log, id)))
  }

  /** Each agent's state is the replay of its accepted reports from the entry it was created
      with, up to the verdict; every key is a usable id and is the entry's own id. */
  predicate IndexOk(d: Codec, states: map<string, AgentState>, base: map<string, AgentState>, log: seq<Entry>)
  {
    && states.Keys == base.Keys
    && Keyed(states)
    && (forall e :: e in log ==> e.rec.agentID in states)
    && (forall id :: id in states ==> IsReplay(d, states[id], base[id], log, id))
  }

  /** What happens to a store. Reopening it is a restart: the index is what state.json holds. */
  datatype StoreOp =
    | OpAppend(rec: Record, now: Instant, f: AppendFault)
    | OpSetLiveness(id: string, down: bool, downSince: Time, notified: NotifyState, saveFails: bool)
    | OpEnsure(id: string, displayName: string, saveFails: bool)
    | OpReopen

  /** The store with its history: the entries agents were created with, the accepted reports, those
      of them that have a line of their own in a file that still exists, and whether a report or
      an agent came in after the last save that went through. */
  datatype History = History(v: StoreView, base: map<string, AgentState>, log: seq<Entry>, onDisk: seq<Entry>,
                             dirty: bool)

  predicate OpOk(op: StoreOp) { op.OpAppend? ==> Nanos(op.now) >= 0 }

  function StillThere(entries: seq<Entry>, files: map<string, Bytes>): (r: seq<Entry>)
    ensures forall e :: e in r <==> e in entries && e.file in files
  {
    if entries == [] then []
    else
      var last := entries[|entries| - 1];
      StillThere(entries[..|entries| - 1], files) + (if last.file in files then [last] else [])
  }

  function Apply(d: Codec, retentionDays: int, h: History, op: StoreOp): History
    requires OpOk(op)
  {
    match op
    case OpAppend(rec, now, f) =>
      var v := AppendTo(d, h.v, rec, now, retentionDays, f).0;
      if Accepted(rec, f) then
        var e := EntryOf(rec, now);
        History(v, if rec.agentID in h.v.states then h.base else h.base[rec.agentID := Blank(rec.agentID, "")],
                h.log + [e],
                StillThere(h.onDisk + (if Whole(Content(h.v.files, e.file)) then [e] else []), v.files), f.SaveFails?)
      else h.(v := v)
    case OpSetLiveness(id, down, downSince, notified, saveFails) =>
      h.(v := SetLivenessOf(h.v, id, down, downSince, notified, saveFails),
         dirty := h.dirty && (saveFails || id !in h.v.states))
    case OpEnsure(id, displayName, saveFails) =>
      var v := EnsureIn(h.v, id, displayName, saveFails);
      if id in h.v.states || id !in v.states then h.(v := v)
      else h.(v := v, base := h.base[id := Blank(id, displayName)], dirty := saveFails)
    case OpReopen => h.(v := h.v.(states := LoadStates(h.v.saved)))
  }

  /** An update of a state's report part: it neither reads nor changes the verdict or the id. */
  predicate IgnoresVerdict(st: AgentState, updated: AgentState, updatedPart: AgentState)
  {
    && ReportPart(updated) == updatedPart
    && updated.agentID == st.agentID
  }

  lemma SummaryIgnoresVerdict(d: Codec, st: AgentState, cs: map<string, string>)
    ensures IgnoresVerdict(st, ApplyHost(d, st, cs), ApplyHost(d, ReportPart(st), cs))
    ensures IgnoresVerdict(st, ApplyDisk(d, st, cs), ApplyDisk(d, ReportPart(st), cs))
    ensures IgnoresVerdict(st, ApplyLoad(d, st, cs), ApplyLoad(d, ReportPart(st), cs))
  {
  }

  /** The verdict plays no part in how a report updates a state. */
  lemma UpdateIgnoresVerdict(d: Codec, st: AgentState, e: Entry)
    ensures ReportPart(Update(d, st, e)) == Update(d, ReportPart(st), e)
    ensures Update(d, st, e).agentID == st.agentID
  {
    var st1 := st.(agentLabel := e.rec.agentLabel, agentType := e.rec.agentType, lastSeen := e.at,
                   reportedAt := e.rec.reportedAt);
    if e.rec.collectors.Some? {
      var cs := e.rec.collectors.value;
      SummaryIgnoresVerdict(d, st1, cs);
      SummaryIgnoresVerdict(d, ApplyHost(d, st1, cs), cs);
      SummaryIgnoresVerdict(d, ApplyDisk(d, ApplyHost(d, st1, cs), cs), cs);
      hide ApplyHost, ApplyDisk, ApplyLoad;
    }
  }

  lemma {:induction false} NoEntries(log: seq<Entry>, id: string)
    requires forall e :: e in log ==> e.rec.agentID != id
    ensures EntriesOf(log, id) == []
  {
    if log != [] {
      assert log[|log| - 1] in log;
      NoEntries(log[..|log| - 1], id);
    }
  }

  lemma EntriesSnoc(log: seq<Entry>, e: Entry, id: string)
    ensures EntriesOf(log + [e], id) == if e.rec.agentID == id then EntriesOf(log, id) + [e] else EntriesOf(log, id)
  {
    assert (log + [e])[..|log|] == log;
    ConcatEmpty(EntriesOf(log, id));
  }

  lemma ReplaySnoc(d: Codec, base: AgentState, entries: seq<Entry>, e: Entry)
    ensures Replay(d, base, entries + [e]) == Update(d, Replay(d, base, entries), e)
  {
    assert (entries + [e])[..|entries|] == entries;
  }

  lemma OwnEntryReplays(d: Codec, st: AgentState, base: AgentState, log: seq<Entry>, e: Entry)
    requires IsReplay(d, st, base, log, e.rec.agentID)
    ensures IsReplay(d, Update(d, st, e), base, log + [e], e.rec.agentID)
  {
    var entries := EntriesOf(log, e.rec.agentID);
    EntriesSnoc(log, e, e.rec.agentID);
    ReplaySnoc(d, base, entries, e);
    hide Update, Replay, EntriesOf;
    UpdateIgnoresVerdict(d, st, e);
    UpdateIgnoresVerdict(d, Replay(d, base, entries), e);
  }

  lemma OtherEntryReplays(d: Codec, st: AgentState, base: AgentState, log: seq<Entry>, e: Entry, id: string)
    requires IsReplay(d, st, base, log, id) && e.rec.agentID != id
    ensures IsReplay(d, st, base, log + [e], id)
  {
    EntriesSnoc(log, e, id);
  }

  lemma UpdateKeepsKeyed(d: Codec, states: map<string, AgentState>, e: Entry)
    requires Keyed(states) && e.rec.agentID in states
    ensures Keyed(states[e.rec.agentID := Update(d, states[e.rec.agentID], e)])
  {
    UpdateIgnoresVerdict(d, states[e.rec.agentID], e);
    hide Update, ValidAgentID;
  }

  lemma UpdateKeepsIndex(d: Codec, states: map<string, AgentState>, base: map<string, AgentState>, log: seq<Entry>,
                         e: Entry)
    requires IndexOk(d, states, base, log) && e.rec.agentID in states
    ensures IndexOk(d, states[e.rec.agentID := Update(d, states[e.rec.agentID], e)], base, log + [e])
  {
    hide Update, ValidAgentID, Keyed, IsReplay, Replay;
    var id := e.rec.agentID;
    UpdateKeepsKeyed(d, states, e);
    OwnEntryReplays(d, states[id], base[id], log, e);
    forall i | i in states && i != id
      ensures IsReplay(d, states[i], base[i], log + [e], i)
    {
      OtherEntryReplays(d, states[i], base[i], log, e, i);
    }
  }

  /** A new agent starts with an empty replay. */
  lemma NewAgentKeepsIndex(d: Codec, states: map<string, AgentState>, base: map<string, AgentState>, log: seq<Entry>,
                           blank: AgentState)
    requires IndexOk(d, states, base, log) && ValidAgentID(blank.agentID) && blank.agentID !in states
    ensures IndexOk(d, states[blank.agentID := blank], base[blank.agentID := blank], log)
  {
    hide Update, ValidAgentID;
    NoEntries(log, blank.agentID);
  }

  lemma AppendKeepsIndex(d: Codec, retentionDays: int, h: History, rec: Record, now: Instant, f: AppendFault)
    requires Nanos(now) >= 0 && Accepted(rec, f) && IndexOk(d, h.v.states, h.base, h.log)
    ensures var h' := Apply(d, retentionDays, h, OpAppend(rec, now, f)); IndexOk(d, h'.v.states, h'.base, h'.log)
  {
    hide Update, IndexOk, Replay, EntriesOf, ValidAgentID, Cleaned, ReportName;
    var h' := Apply(d, retentionDays, h, OpAppend(rec, now, f));
    var e := EntryOf(rec, now);
    var id := rec.agentID;
    var blank := Blank(id, "");
    if id in h.v.states {
      UpdateKeepsIndex(d, h.v.states, h.base, h.log, e);
    } else {
      NewAgentKeepsIndex(d, h.v.states, h.base, h.log, blank);
      UpdateKeepsIndex(d, h.v.states[id := blank], h.base[id := blank], h.log, e);
      assert h.v.states[id := blank][id := Update(d, blank, e)] == h'.v.states;
    }
  }

  lemma SetLivenessKeepsIndex(d: Codec, v: StoreView, base: map<string, AgentState>, log: seq<Entry>,
                              id: string, down: bool, downSince: Time, notified: NotifyState, saveFails: bool)
    requires IndexOk(d, v.states, base, log)
    ensures IndexOk(d, SetLivenessOf(v, id, down, downSince, notified, saveFails).states, base, log)
  {
    hide Replay, EntriesOf, ValidAgentID;
  }

  /** Two indexes say the same about reports; verdicts may differ. */
  predicate SameReports(a: map<string, AgentState>, b: map<string, AgentState>)
  {
    a.Keys == b.Keys && forall id :: id in a ==> ReportPart(a[id]) == ReportPart(b[id])
  }

  /** A reopened store still equals the replay of the log if and only if state.json says the same
      about reports as the index did. */
  lemma ReopenedIsOkIff(d: Codec, v: StoreView, base: map<string, AgentState>, log: seq<Entry>)
    requires IndexOk(d, v.states, base, log)
    ensures IndexOk(d, LoadStates(v.saved), base, log) <==> SameReports(LoadStates(v.saved), v.states)
  {
    hide Replay, EntriesOf, ReportPart;
  }

  /** The place where index and log part company: a new agent's report is accepted, its save
      fails, and a restart knows nothing of it although its line is in the log. */
  lemma LostSaveForgetsReport(d: Codec, retentionDays: int, h: History, rec: Record, now: Instant)
    requires Nanos(now) >= 0 && ValidAgentID(rec.agentID) && rec.agentID !in LoadStates(h.v.saved)
    ensures var h' := Apply(d, retentionDays, Apply(d, retentionDays, h, OpAppend(rec, now, SaveFails)), OpReopen);
            && EntryOf(rec, now) in h'.log && rec.agentID !in h'.v.states
            && !IndexOk(d, h'.v.states, h'.base, h'.log)
  {
    hide Update, ReportName, Replay, EntriesOf, ValidAgentID;
  }

  /** Without a report or an agent since the last save that went through, state.json says all. */
  predicate SavedOk(h: History) { !h.dirty ==> SameReports(LoadStates(h.v.saved), h.v.states) }

  lemma SavedStatesAreSame(states: map<string, AgentState>)
    requires Keyed(states)
    ensures SameReports(LoadStates(Some(SaveStates(states))), states)
  {
    SaveLoadIdentity(states);
  }

  lemma VerdictIsNoReport(v: StoreView, id: string, down: bool, downSince: Time, notified: NotifyState, saveFails: bool)
    ensures SameReports(v.states, SetLivenessOf(v, id, down, downSince, notified, saveFails).states)
    ensures forall s :: SameReports(s, v.states)
                        ==> SameReports(s, SetLivenessOf(v, id, down, downSince, notified, saveFails).states)
  {
  }

  lemma AppendKeepsSaved(d: Codec, retentionDays: int, h: History, rec: Record, now: Instant, f: AppendFault)
    requires Nanos(now) >= 0 && SavedOk(h)
    requires Keyed(Apply(d, retentionDays, h, OpAppend(rec, now, f)).v.states)
    ensures SavedOk(Apply(d, retentionDays, h, OpAppend(rec, now, f)))
  {
    hide Update, LoadStates, SaveStates, Cleaned, ReportName, ValidAgentID, Keyed, StillThere, EntryOf, Extended,
        SameReports;
    SavedStatesAreSame(Apply(d, retentionDays, h, OpAppend(rec, now, f)).v.states);
  }

  lemma EnsureKeepsSaved(d: Codec, retentionDays: int, h: History, id: string, displayName: string, saveFails: bool)
    requires SavedOk(h)
    requires Keyed(Apply(d, retentionDays, h, OpEnsure(id, displayName, saveFails)).v.states)
    ensures SavedOk(Apply(d, retentionDays, h, OpEnsure(id, displayName, saveFails)))
  {
    hide LoadStates, SaveStates, ValidAgentID, Keyed, SameReports;
    SavedStatesAreSame(Apply(d, retentionDays, h, OpEnsure(id, displayName, saveFails)).v.states);
  }

  lemma VerdictKeepsSaved(d: Codec, retentionDays: int, h: History, op: StoreOp)
    requires op.OpSetLiveness? && SavedOk(h) && Keyed(Apply(d, retentionDays, h, op).v.states)
    ensures SavedOk(Apply(d, retentionDays, h, op))
  {
    hide LoadStates, SaveStates, ValidAgentID, Keyed;
    SavedStatesAreSame(Apply(d, retentionDays, h, op).v.states);
    VerdictIsNoReport(h.v, op.id, op.down, op.downSince, op.notified, op.saveFails);
    hide SameReports;
  }

  lemma OpKeepsSaved(d: Codec, retentionDays: int, h: History, op: StoreOp)
    requires OpOk(op) && IndexOk(d, h.v.states, h.base, h.log) && SavedOk(h)
    requires op.OpReopen? ==> !h.dirty
    ensures SavedOk(Apply(d, retentionDays, h, op))
  {
    assert Keyed(Apply(d, retentionDays, h, op).v.states) by {
      OpKeepsIndex(d, retentionDays, h, op);
    }
    hide IndexOk, Keyed, LoadStates, SameReports;
    match op
    case OpAppend(rec, now, f) => AppendKeepsSaved(d, retentionDays, h, rec, now, f);
    case OpSetLiveness(id, down, downSince, notified, saveFails) => VerdictKeepsSaved(d, retentionDays, h, op);
    case OpEnsure(id, name, saveFails) => EnsureKeepsSaved(d, retentionDays, h, id, name, saveFails);
    case OpReopen => SameAsItself(LoadStates(h.v.saved));
  }

  lemma SameAsItself(states: map<string, AgentState>)
    ensures SameReports(states, states)
  {
  }

  /** Whatever operation is interleaved, whichever of its steps fails: the index stays the
      replay of exactly the reports whose write and close succeeded. */
  lemma OpKeepsIndex(d: Codec, retentionDays: int, h: History, op: StoreOp)
    requires OpOk(op) && IndexOk(d, h.v.states, h.base, h.log) && SavedOk(h)
    requires op.OpReopen? ==> !h.dirty
    ensures var h' := Apply(d, retentionDays, h, op); IndexOk(d, h'.v.states, h'.base, h'.log)
  {
    hide IndexOk, Update, Cleaned, ReportName, SameReports;
    match op
    case OpAppend(rec, now, f) =>
      if Accepted(rec, f) {
        AppendKeepsIndex(d, retentionDays, h, rec, now, f);
      }
    case OpSetLiveness(id, down, downSince, notified, saveFails) =>
      SetLivenessKeepsIndex(d, h.v, h.base, h.log, id, down, downSince, notified, saveFails);
    case OpEnsure(id, name, saveFails) =>
      if ValidAgentID(id) && id !in h.v.states {
        assert Blank(id, name).agentID == id;
        NewAgentKeepsIndex(d, h.v.states, h.base, h.log, Blank(id, name));
      }
    case OpReopen => ReopenedIsOkIff(d, h.v, h.base, h.log);
  }

  // ----- the log on disk -----

  /** JSON holds no newline. */
  ghost predicate OneLineEach(d: Codec) { forall rec :: NEWLINE !in d.encode(rec) }

  /** The entry is a line of its file. */
  predicate IsLine(d: Codec, files: map<string, Bytes>, e: Entry)
  {
    e.file in files && LineOf(d, e.rec) in LinesFrom(files[e.file], 0, false)
  }

  /** A report is a line of its own exactly if its file ended in a newline before. */
  lemma ReportIsALineIffWhole(d: Codec, data: Bytes, rec: Record)
    requires NEWLINE !in d.encode(rec)
    ensures LinesFrom(data + LineOf(d, rec), 0, false) == LinesFrom(data, 0, false) + [LineOf(d, rec)] <==> Whole(data)
    ensures Whole(data + LineOf(d, rec))
  {
    var line, lines := LineOf(d, rec), LinesFrom(data, 0, false);
    LineIsGlued(data, d.encode(rec));
    WholeHasNoRest(data);
    hide LinesFrom, Rest, Whole;
    if Rest(data) == [] {
      ConcatEmpty(line);
    } else {
      assert (lines + [line])[|lines|] == line;
      assert (lines + [Rest(data) + line])[|lines|] == Rest(data) + line;
      assert |Rest(data) + line| > |line|;
    }
  }

  lemma ExtendedKeepsLines(d: Codec, files: map<string, Bytes>, name: string, bytes: Bytes, e: Entry)
    requires IsLine(d, files, e)
    ensures IsLine(d, Extended(files, name, bytes), e)
  {
    if e.file == name {
      LinesAppend(files[name], bytes, 0);
    }
  }

  /** Every accepted report with a line of its own is still there, unless its file was deleted. */
  predicate OnDiskOk(d: Codec, h: History) { forall e :: e in h.onDisk ==> IsLine(d, h.v.files, e) }

  lemma OpKeepsOnDisk(d: Codec, retentionDays: int, h: History, op: StoreOp)
    requires OneLineEach(d) && OpOk(op) && OnDiskOk(d, h)
    ensures OnDiskOk(d, Apply(d, retentionDays, h, op))
  {
    var h' := Apply(d, retentionDays, h, op);
    if op.OpAppend? && ValidAgentID(op.rec.agentID) && !op.f.OpenFails? {
      var e := EntryOf(op.rec, op.now);
      var data, bytes := Content(h.v.files, e.file), WrittenOf(LineOf(d, op.rec), op.f);
      ReportIsALineIffWhole(d, data, op.rec);
      var files := Extended(h.v.files, e.file, bytes);
      hide Update, Expired, ReportName, LinesFrom, Whole, ValidAgentID, SaveStates, LineOf;
      forall x | x in h.onDisk
        ensures IsLine(d, files, x)
      {
        ExtendedKeepsLines(d, h.v.files, e.file, bytes, x);
      }
      assert forall n :: n in h'.v.files ==> n in files && h'.v.files[n] == files[n];
    }
  }

  // ----- runs -----

  /** The conditions on a run: a restart only when everything has been saved. */
  predicate OpsOk(d: Codec, retentionDays: int, h: History, ops: seq<StoreOp>)
    decreases |ops|
  {
    ops == []
    || (OpOk(ops[0]) && (ops[0].OpReopen? ==> !h.dirty)
        && OpsOk(d, retentionDays, Apply(d, retentionDays, h, ops[0]), ops[1..]))
  }

  function ApplyAll(d: Codec, retentionDays: int, h: History, ops: seq<StoreOp>): History
    requires OpsOk(d, retentionDays, h, ops)
    decreases |ops|
  {
    if ops == [] then h else ApplyAll(d, retentionDays, Apply(d, retentionDays, h, ops[0]), ops[1..])
  }

  predicate HistoryOk(d: Codec, h: History) { IndexOk(d, h.v.states, h.base, h.log) && SavedOk(h) && OnDiskOk(d, h) }

  /** In every run, restarts included, the index agrees with the log, saving it and loading it
      back gives the same index, and the accepted reports that have a line of their own are
      lines of the files that are left. */
  lemma {:induction false} IndexAgreesWithLog(d: Codec, retentionDays: int, h: History, ops: seq<StoreOp>)
    requires OneLineEach(d) && OpsOk(d, retentionDays, h, ops) && HistoryOk(d, h)
    ensures var h' := ApplyAll(d, retentionDays, h, ops);
            HistoryOk(d, h') && LoadStates(Some(SaveStates(h'.v.states))) == h'.v.states
    decreases |ops|
  {
    if ops != [] {
      hide OneLineEach, IndexOk, SavedOk, OnDiskOk, Apply;
      OpKeepsIndex(d, retentionDays, h, ops[0]);
      OpKeepsSaved(d, retentionDays, h, ops[0]);
      OpKeepsOnDisk(d, retentionDays, h, ops[0]);
      IndexAgreesWithLog(d, retentionDays, Apply(d, retentionDays, h, ops[0]), ops[1..]);
    } else {
      SaveLoadIdentity(h.v.states);
    }
  }

  lemma SaveLoadIdentity(states: map<string, AgentState>)
    requires Keyed(states)
    ensures LoadStates(Some(SaveStates(states))) == states
  {
  }

  /** Whatever state.json holds, a store that has just been opened agrees with the (empty)
      history it starts from: unusable ids and missing entries are dropped, and every entry's
      id follows its key. */
  lemma OpenedStoreIsOk(d: Codec, saved: Option<map<string, Option<AgentState>>>, files: map<string, Bytes>)
    ensures var states := LoadStates(saved);
            && HistoryOk(d, History(StoreView(states, saved, files), states, [], [], false))
            && (forall id :: id in states <==>
                               saved.Some? && id in saved.value && saved.value[id].Some? && ValidAgentID(id))
  {
  }

  /** Appending never deletes the report it appends, deletes only what has expired, and adds
      the report to the end of its file: as a line of its own if that file was whole. */
  lemma AppendedReportIsKept(d: Codec, v: StoreView, rec: Record, now: Instant, retentionDays: int)
    requires ValidInstant(now) && Nanos(now) >= 0 && ValidAgentID(rec.agentID) && NEWLINE !in d.encode(rec)
    ensures var v' := AppendTo(d, v, rec, now, retentionDays, NoFault).0;
            var name := ReportName(rec.agentID, now.date);
            var data := Content(v.files, name);
            && name in v'.files && v'.files[name] == data + LineOf(d, rec)
            && (LinesFrom(v'.files[name], 0, false) == LinesFrom(data, 0, false) + [LineOf(d, rec)] <==> Whole(data))
            && forall n :: n in v.files && n != name ==>
                 (n in v'.files <==> retentionDays <= 0 || !Expired(n, now, retentionDays))
                 && (n in v'.files ==> v'.files[n] == v.files[n])
  {
    if retentionDays >= 1 {
      TodayIsKept(rec.agentID, now, retentionDays);
    }
    hide Update, LinesFrom, Whole, Expired, ReportName;
    ReportIsALineIffWhole(d, Content(v.files, ReportName(rec.agentID, now.date)), rec);
  }
}
