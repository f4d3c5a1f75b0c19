/** The tailer's state file, the local copy of the events, and one whole Collect. */
module NextcloudState {
  import opened Basics
  import opened Lines
  import opened NextcloudModel

  const MAX_JSONL_BYTES: nat := 10 * 1024 * 1024

  // ----- state file: whatever JSON is found on disk, and what loadState makes of it -----

  datatype RawHead = RawHead(len: int, sum: Option<Bytes>)
  datatype RawPrev = RawPrev(path: string, offset: Option<int>, inode: nat, head: RawHead)
  datatype RawFile = RawFile(path: string, offset: Option<int>, inode: nat, head: RawHead, prev: Option<RawPrev>)
  datatype RawMark = RawMark(size: Option<int>, head: RawHead)
  datatype StateFile =
    | Absent
    | Garbled
    | Json(files: Option<map<string, Option<RawFile>>>, round: nat, appending: Option<RawMark>)

  const EMPTY_STATE := State(None, None, 0, None)

  predicate ValidHead(h: RawHead)
  {
    if h.len == 0 then h.sum.None?
    else 0 < h.len <= HEAD_FINGERPRINT_BYTES && h.sum.Some? && |h.sum.value| == h.len
  }

  function HeadBytes(h: RawHead): Bytes { if h.sum.Some? then h.sum.value else [] }

  function RawHeadOf(h: Bytes): RawHead { RawHead(|h|, if h == [] then None else Some(h)) }

  predicate ValidPrev(p: RawPrev)
  {
    p.offset.Some? && p.offset.value >= 0 && p.path != "" && ValidHead(p.head)
  }

  function LoadPrev(p: Option<RawPrev>): Option<PrevState>
  {
    if p.Some? && ValidPrev(p.value) then
      Some(PrevState(p.value.path, p.value.offset.value, p.value.inode, HeadBytes(p.value.head)))
    else
      None
  }

  /** An entry without a usable position is dropped: its source starts over. */
  function LoadFile(files: map<string, Option<RawFile>>, key: string): Option<Cursor>
  {
    if key !in files || files[key].None? then None
    else
      var r := files[key].value;
      if r.path == "" || r.offset.None? || r.offset.value < 0 || !ValidHead(r.head) then None
      else Some(Cursor(r.path, r.offset.value, r.inode, HeadBytes(r.head), LoadPrev(r.prev)))
  }

  function LoadMark(m: Option<RawMark>): Option<Mark>
  {
    if m.Some? && m.value.size.Some? && m.value.size.value >= 0 && ValidHead(m.value.head) then
      Some(Mark(m.value.size.value, HeadBytes(m.value.head)))
    else
      None
  }

  /** A fingerprint of 1 to 512 bytes with its digest, or none at all. */
  predicate SoundHead(h: RawHead)
  {
    (h.len == 0 && h.sum == None) || (1 <= h.len <= 512 && h.sum.Some? && |h.sum.value| == h.len)
  }

  /** A source starts over if and only if its entry is missing or damaged; a damaged rest of `.1`
      costs only that rest. */
  lemma DamagedEntryStartsOver(files: map<string, Option<RawFile>>, key: string)
    ensures LoadFile(files, key).None? <==>
            || key !in files || files[key] == None
            || files[key].value.path == "" || files[key].value.offset == None || files[key].value.offset.value < 0
            || !SoundHead(files[key].value.head)
    ensures LoadFile(files, key).Some? ==>
              var r, c := files[key].value, LoadFile(files, key).value;
              && c.path == r.path && c.offset == r.offset.value && c.inode == r.inode && |c.head| == r.head.len
              && (c.prev.Some? <==>
                    && r.prev.Some? && r.prev.value.path != "" && r.prev.value.offset.Some?
                    && r.prev.value.offset.value >= 0 && SoundHead(r.prev.value.head))
              && (c.prev.Some? ==> c.prev.value.path == r.prev.value.path
                                   && c.prev.value.offset == r.prev.value.offset.value
                                   && c.prev.value.inode == r.prev.value.inode)
  {
  }

  predicate WellFormedCursor(c: Cursor)
  {
    && c.path != "" && |c.head| <= HEAD_FINGERPRINT_BYTES
    && (c.prev.Some? ==> c.prev.value.path != "" && |c.prev.value.head| <= HEAD_FINGERPRINT_BYTES)
  }

  predicate WellFormed(st: State)
  {
    && (st.app.Some? ==> WellFormedCursor(st.app.value))
    && (st.audit.Some? ==> WellFormedCursor(st.audit.value))
    && (st.appending.Some? ==> |st.appending.value.head| <= HEAD_FINGERPRINT_BYTES)
  }

  /** Any state file at all, damaged or not, loads into a usable state. */
  function LoadState(f: StateFile): (st: State)
    ensures WellFormed(st)
  {
    if f.Json? && f.files.Some? then
      State(LoadFile(f.files.value, "app"), LoadFile(f.files.value, "audit"), f.round, LoadMark(f.appending))
    else
      EMPTY_STATE
  }

  function RawOf(c: Cursor): RawFile
  {
    RawFile(c.path, Some(c.offset), c.inode, RawHeadOf(c.head),
            match c.prev
            case None => None
            case Some(p) => Some(RawPrev(p.path, Some(p.offset), p.inode, RawHeadOf(p.head))))
  }

  function SaveState(st: State): StateFile
  {
    Json(Some((if st.app.Some? then map["app" := Some(RawOf(st.app.value))] else map[])
              + (if st.audit.Some? then map["audit" := Some(RawOf(st.audit.value))] else map[])),
         st.round,
         match st.appending
         case None => None
         case Some(m) => Some(RawMark(Some(m.size), RawHeadOf(m.head))))
  }

  lemma RawRoundTrip(c: Cursor, files: map<string, Option<RawFile>>, key: string)
    requires WellFormedCursor(c)
    requires key in files && files[key] == Some(RawOf(c))
    ensures LoadFile(files, key) == Some(c)
  {
    assert HeadBytes(RawHeadOf(c.head)) == c.head;
    if c.prev.Some? {
      assert HeadBytes(RawHeadOf(c.prev.value.head)) == c.prev.value.head;
    }
  }

  /** A saved state is read back as it was. */
  lemma StateRoundTrip(st: State)
    requires WellFormed(st)
    ensures LoadState(SaveState(st)) == st
  {
    var files := SaveState(st).files.value;
    if st.app.Some? {
      RawRoundTrip(st.app.value, files, "app");
    }
    if st.audit.Some? {
      RawRoundTrip(st.audit.value, files, "audit");
    }
    if st.appending.Some? {
      assert HeadBytes(RawHeadOf(st.appending.value.head)) == st.appending.value.head;
    }
  }

  // ----- nextcloud.jsonl -----

  function JsonlBytes(k: Codec, evs: seq<NCEvent>): Bytes
  {
    if evs == [] then [] else k.encode(evs[0]) + [NEWLINE] + JsonlBytes(k, evs[1..])
  }

  lemma {:induction false} JsonlBytesConcat(k: Codec, a: seq<NCEvent>, b: seq<NCEvent>)
    ensures JsonlBytes(k, a + b) == JsonlBytes(k, a) + JsonlBytes(k, b)
  {
    if a == [] {
      assert a + b == b;
    } else {
      assert (a + b)[1..] == a[1..] + b;
      JsonlBytesConcat(k, a[1..], b);
      ConcatAssoc(k.encode(a[0]) + [NEWLINE], JsonlBytes(k, a[1..]), JsonlBytes(k, b));
    }
  }

  function Content(jsonl: Option<Bytes>): Bytes { if jsonl.Some? then jsonl.value else [] }

  /** The undo mark for an append that is about to start. */
  function NewMark(jsonl: Option<Bytes>): Mark
  {
    match jsonl
    case None => Mark(0, [])
    case Some(data) => Mark(|data|, Fingerprint(data))
  }

  /** Undo an append that an earlier round left half done. */
  function Recover(jsonl: Option<Bytes>, m: Option<Mark>): Option<Bytes>
  {
    if m.None? || jsonl.None? then jsonl
    else if |jsonl.value| <= m.value.size then jsonl
    else if !HeadMatches(m.value.head, jsonl.value) then jsonl
    else Some(jsonl.value[..m.value.size])
  }

  /** A file that has not grown past the mark, or begins differently, was not appended to. */
  lemma ForeignCopyIsKept(jsonl: Option<Bytes>, m: Mark)
    requires jsonl.Some? ==> |jsonl.value| <= m.size || !(m.head <= jsonl.value)
    ensures Recover(jsonl, Some(m)) == jsonl
  {
  }

  // ----- one Collect -----

  datatype AppendFault = NoFault | OpenFailed | WrittenOnly(bytes: nat)

  /** Which of the round's steps fail. A crash at a step has the same effect on disk. */
  datatype Faults = Faults(mkdir: bool, recover: bool, read: bool, mark: bool, pendingSave: bool,
                           append: AppendFault, rotate: bool, finalSave: bool)

  /** The collector's own files. */
  datatype Dir = Dir(stateFile: StateFile, jsonl: Option<Bytes>, jsonlOld: Option<Bytes>)

  datatype Outcome = NotInstalled | Failed | Collected(result: CollectResult)

  function Appended(jsonl: Option<Bytes>, bytes: Bytes, f: AppendFault): Option<Bytes>
  {
    match f
    case NoFault => Some(Content(jsonl) + bytes)
    case OpenFailed => jsonl
    case WrittenOnly(n) => Some(Content(jsonl) + bytes[..if n < |bytes| then n else |bytes|])
  }

  predicate TooLarge(jsonl: Option<Bytes>) { |Content(jsonl)| > MAX_JSONL_BYTES }

  /** The append with its undo mark; true when everything but the final save is done. */
  function WriteEvents(k: Codec, before: State, d: Dir, evs: seq<NCEvent>, f: Faults): (Dir, bool)
  {
    if f.mark || f.pendingSave then (d, false)
    else
      var pending := SaveState(before.(appending := Some(NewMark(d.jsonl))));
      var d1 := Dir(pending, Appended(d.jsonl, JsonlBytes(k, evs), f.append), d.jsonlOld);
      if !f.append.NoFault? then (d1, false)
      else if !TooLarge(d1.jsonl) then (d1, true)
      else if f.rotate then (d1, false)
      else (Dir(pending, None, d1.jsonl), true)
  }

  predicate Installed(cfg: Config, snap: Snapshot)
  {
    cfg.nextcloudLog in snap || cfg.ncAuditLog in snap
  }

  /** Once the sources are read: append, then save the new positions. */
  function Finish(k: Codec, before: State, d: Dir, reading: Reading, f: Faults): (Dir, Outcome)
  {
    var result := reading.Result();
    var (d1, ok) := if result.events == [] then (d, true) else WriteEvents(k, before, d, result.events, f);
    if !ok || f.finalSave then (d1, Failed)
    else (d1.(stateFile := SaveState(reading.NextState(before.round))), Collected(result))
  }

  function Collect(k: Codec, cfg: Config, snap: Snapshot, d: Dir, f: Faults): (Dir, Outcome)
  {
    if !Installed(cfg, snap) then (d, NotInstalled)
    else if f.mkdir || f.recover then (d, Failed)
    else
      var st := LoadState(d.stateFile);
      var before := st.(appending := None);
      var d0 := d.(jsonl := Recover(d.jsonl, st.appending));
      if f.read then (d0, Failed)
      else
        match ReadBoth(k, cfg, snap, before)
        case None => (d0, Failed)
        case Some(reading) => Finish(k, before, d0, reading, f)
  }

  predicate IsDirectory(snap: Snapshot, path: string) { path in snap && snap[path] == Directory }

  /** Without logs there is nothing to collect; otherwise a Collect with no fault fails exactly
      if a log is a directory, and one that succeeds met no fault that it depends on. */
  lemma CollectOutcome(k: Codec, cfg: Config, snap: Snapshot, d: Dir, f: Faults)
    ensures var o := Collect(k, cfg, snap, d, f).1;
            && (o.NotInstalled? <==> cfg.nextcloudLog !in snap && cfg.ncAuditLog !in snap)
            && (f == Faults(false, false, false, false, false, NoFault, false, false) && !o.NotInstalled? ==>
                  (o.Failed? <==> IsDirectory(snap, cfg.nextcloudLog) || IsDirectory(snap, cfg.ncAuditLog)))
            && (o.Collected? ==>
                  && !f.mkdir && !f.recover && !f.read && !f.finalSave
                  && (o.result.events != [] ==> !f.mark && !f.pendingSave && f.append == NoFault))
  {
    hide Drain, FirstContact, Reconcile, Recover, LoadState, JsonlBytes, NewMeter, NewMark;
  }

  /** A successful Collect has the returned events in the local copy, behind what was there, and
      renames the copy when it exceeds 10 MiB. */
  lemma CollectedIsAppended(k: Codec, cfg: Config, snap: Snapshot, d: Dir, f: Faults)
    ensures var (d', o) := Collect(k, cfg, snap, d, f);
            var before := Recover(d.jsonl, LoadState(d.stateFile).appending);
            o.Collected? ==>
              if o.result.events == [] then d'.jsonl == before && d'.jsonlOld == d.jsonlOld
              else
                var content := Content(before) + JsonlBytes(k, o.result.events);
                if |content| > 10485760 then d'.jsonl == None && d'.jsonlOld == Some(content)
                else d'.jsonl == Some(content) && d'.jsonlOld == d.jsonlOld
  {
    hide ReadBoth, LoadState, Recover, JsonlBytes, NewMark;
  }
}
