/** The shared template of the log collectors: tail a log, parse its lines, drop what the
    jsonl file already holds, append the rest, and rotate the file when it grows too large. */
module JsonlCollector {
  import opened Basics
  import opened Lines
  import opened RingTails

  /** What a collector plugs in, and JSON. `encode` is None when a record cannot be marshalled. */
  datatype Codec<!T, !K> = Codec(parse: Bytes -> Option<T>, key: T -> K,
                                 encode: T -> Option<Bytes>, decode: Bytes -> Option<T>)

  const CARRIAGE_RETURN: Byte := 13

  /** A scanned line comes without its newline, and without a carriage return before it. */
  function Token(line: Bytes): Bytes
  {
    var text := if line != [] && line[|line| - 1] == NEWLINE then line[..|line| - 1] else line;
    if text != [] && text[|text| - 1] == CARRIAGE_RETURN then text[..|text| - 1] else text
  }

  lemma LastIs(text: Bytes, b: Byte)
    ensures text + [b] != [] && (text + [b])[|text + [b]| - 1] == b
    ensures (text + [b])[..|text + [b]| - 1] == text
  {
  }

  /** A carriage return at the end is cut off, and nothing else but a newline is. */
  lemma PlainTextIsKept(text: Bytes)
    ensures Token(text + [13]) == text
    ensures text == [] || (text[|text| - 1] != 13 && text[|text| - 1] != 10) ==> Token(text) == text
  {
    LastIs(text, 13);
  }

  /** A line end is cut off, be it a newline or a carriage return and a newline. */
  lemma LineEndsAreCut(text: Bytes)
    ensures Token((text + [13]) + [10]) == text
    ensures text == [] || text[|text| - 1] != 13 ==> Token(text + [10]) == text
  {
    LastIs(text, 13);
    LastIs(text, 10);
    LastIs(text + [13], 10);
  }

  function TokensOf(lines: seq<Bytes>): seq<Bytes>
  {
    if lines == [] then [] else TokensOf(lines[..|lines| - 1]) + [Token(lines[|lines| - 1])]
  }

  /** What a line scanner delivers for a file. */
  function Scanned(data: Bytes): seq<Bytes> { TokensOf(LinesFrom(data, 0, true)) }

  function Content(file: Option<Bytes>): Bytes { if file.Some? then file.value else [] }

  // ----- which records are new -----

  function KeysOf<T, K>(c: Codec<T, K>, lines: seq<Bytes>): set<K>
  {
    if lines == [] then {}
    else
      var r := c.decode(lines[|lines| - 1]);
      KeysOf(c, lines[..|lines| - 1]) + (if r.Some? then {c.key(r.value)} else {})
  }

  function Parsed<T, K>(c: Codec<T, K>, lines: seq<Bytes>): seq<T>
  {
    if lines == [] then []
    else
      var r := c.parse(lines[|lines| - 1]);
      Parsed(c, lines[..|lines| - 1]) + (if r.Some? then [r.value] else [])
  }

  lemma {:induction false} ParsedJoins<T, K>(c: Codec<T, K>, a: seq<Bytes>, b: seq<Bytes>)
    ensures Parsed(c, a + b) == Parsed(c, a) + Parsed(c, b)
    ensures |b| == 1 ==> Parsed(c, b) == if c.parse(b[0]).Some? then [c.parse(b[0]).value] else []
  {
    if b == [] {
      ConcatEmpty(a);
      ConcatEmpty(Parsed(c, a));
    } else {
      var most, r := b[..|b| - 1], c.parse(b[|b| - 1]);
      assert (a + b)[..|a + b| - 1] == a + most;
      ParsedJoins(c, a, most);
      ConcatAssoc(Parsed(c, a), Parsed(c, most), if r.Some? then [r.value] else []);
    }
  }

  predicate HasKey<T, K(==)>(c: Codec<T, K>, records: seq<T>, k: K)
  {
    exists i :: 0 <= i < |records| && c.key(records[i]) == k
  }

  /** Record `i` is the first of its key, and the key is not known yet. */
  predicate IsFirst<T, K(==)>(c: Codec<T, K>, records: seq<T>, seen: set<K>, i: nat)
    requires i < |records|
  {
    c.key(records[i]) !in seen && forall j :: 0 <= j < i ==> c.key(records[j]) != c.key(records[i])
  }

  /** The first occurrences of unknown keys, in order. */
  function Fresh<T, K(==)>(c: Codec<T, K>, records: seq<T>, seen: set<K>): seq<T>
  {
    if records == [] then []
    else
      var n := |records| - 1;
      Fresh(c, records[..n], seen) + (if IsFirst(c, records, seen, n) then [records[n]] else [])
  }

  lemma HasKeySnoc<T, K>(c: Codec<T, K>, records: seq<T>, r: T, k: K)
    ensures HasKey(c, records + [r], k) <==> HasKey(c, records, k) || c.key(r) == k
  {
    if HasKey(c, records, k) {
      var i :| 0 <= i < |records| && c.key(records[i]) == k;
      assert (records + [r])[i] == records[i];
    }
    assert (records + [r])[|records|] == r;
  }

  lemma HasKeyLast<T, K>(c: Codec<T, K>, records: seq<T>, k: K)
    requires records != []
    ensures HasKey(c, records, k) <==> HasKey(c, records[..|records| - 1], k) || c.key(records[|records| - 1]) == k
  {
    assert records == records[..|records| - 1] + [records[|records| - 1]];
    HasKeySnoc(c, records[..|records| - 1], records[|records| - 1], k);
  }

  lemma HasKeyConcat<T, K>(c: Codec<T, K>, a: seq<T>, b: seq<T>, k: K)
    ensures HasKey(c, a + b, k) <==> HasKey(c, a, k) || HasKey(c, b, k)
  {
    if HasKey(c, a, k) {
      var i :| 0 <= i < |a| && c.key(a[i]) == k;
      assert (a + b)[i] == a[i];
    }
    if HasKey(c, b, k) {
      var i :| 0 <= i < |b| && c.key(b[i]) == k;
      assert (a + b)[|a| + i] == b[i];
    }
  }

  predicate DistinctKeys<T, K(==)>(c: Codec<T, K>, records: seq<T>)
  {
    forall i, j :: 0 <= i < j < |records| ==> c.key(records[i]) != c.key(records[j])
  }

  /** A key is missing from what is returned exactly if it was known, or never occurs. */
  lemma {:induction false} FreshIsExact<T, K>(c: Codec<T, K>, records: seq<T>, seen: set<K>, k: K)
    ensures HasKey(c, Fresh(c, records, seen), k) <==> HasKey(c, records, k) && k !in seen
  {
    if records != [] {
      var n := |records| - 1;
      var r := records[n];
      FreshIsExact(c, records[..n], seen, k);
      assert records == records[..n] + [r];
      HasKeySnoc(c, records[..n], r, k);
      HasKeySnoc(c, Fresh(c, records[..n], seen), r, k);
      ConcatEmpty(Fresh(c, records[..n], seen));
      FirstIsNew(c, records, seen, n);
      hide HasKey, IsFirst;
    }
  }

  lemma FirstIsNew<T, K>(c: Codec<T, K>, records: seq<T>, seen: set<K>, n: nat)
    requires n < |records|
    ensures IsFirst(c, records, seen, n) <==> c.key(records[n]) !in seen && !HasKey(c, records[..n], c.key(records[n]))
  {
    if IsFirst(c, records, seen, n) {
      assert forall i :: 0 <= i < n ==> records[..n][i] == records[i];
    } else if c.key(records[n]) !in seen {
      var j :| 0 <= j < n && c.key(records[j]) == c.key(records[n]);
      assert records[..n][j] == records[j];
    }
  }

  lemma {:induction false} FreshIsDistinct<T, K>(c: Codec<T, K>, records: seq<T>, seen: set<K>)
    ensures DistinctKeys(c, Fresh(c, records, seen))
  {
    if records != [] {
      var n := |records| - 1;
      var before := Fresh(c, records[..n], seen);
      FreshIsDistinct(c, records[..n], seen);
      FirstIsNew(c, records, seen, n);
      FreshIsExact(c, records[..n], seen, c.key(records[n]));
      if IsFirst(c, records, seen, n) {
        assert forall i :: 0 <= i < |before| ==> c.key(before[i]) != c.key(records[n]);
      }
    }
  }

  function KeysIn<T, K(==)>(c: Codec<T, K>, records: seq<T>): set<K>
  {
    set i | 0 <= i < |records| :: c.key(records[i])
  }

  /** New records stay in the order of the log: those of two stretches are the first one's, and
      then the second one's without the keys of the first. */
  lemma {:induction false} FreshJoins<T, K>(c: Codec<T, K>, a: seq<T>, b: seq<T>, seen: set<K>)
    ensures Fresh(c, a + b, seen) == Fresh(c, a, seen) + Fresh(c, b, seen + KeysIn(c, a))
  {
    if b == [] {
      ConcatEmpty(a);
      ConcatEmpty(Fresh(c, a, seen));
    } else {
      hide IsFirst, HasKey;
      var most, r := b[..|b| - 1], b[|b| - 1];
      FreshJoins(c, a, most, seen);
      assert (a + b)[..|a + b| - 1] == a + most;
      FirstIsNew(c, a + b, seen, |a| + |most|);
      FirstIsNew(c, b, seen + KeysIn(c, a), |most|);
      HasKeyConcat(c, a, most, c.key(r));
      HasKeyIsIn(c, a, c.key(r));
      ConcatAssoc(Fresh(c, a, seen), Fresh(c, most, seen + KeysIn(c, a)),
                  if IsFirst(c, b, seen + KeysIn(c, a), |most|) then [r] else []);
    }
  }

  lemma HasKeyIsIn<T, K>(c: Codec<T, K>, records: seq<T>, k: K)
    ensures HasKey(c, records, k) <==> k in KeysIn(c, records)
  {
  }

  /** A single record is new exactly if its key is not known. */
  lemma FreshOfOne<T, K>(c: Codec<T, K>, r: T, seen: set<K>)
    ensures Fresh(c, [r], seen) == if c.key(r) in seen then [] else [r]
  {
    assert Fresh(c, [r][..0], seen) == [];
  }

  // ----- the jsonl file -----

  function JsonLine<T, K>(c: Codec<T, K>, r: T): Bytes
  {
    var e := c.encode(r);
    if e.Some? then e.value + [NEWLINE] else []
  }

  function JsonlOf<T, K>(c: Codec<T, K>, records: seq<T>): Bytes
  {
    if records == [] then [] else JsonlOf(c, records[..|records| - 1]) + JsonLine(c, records[|records| - 1])
  }

  lemma JsonlNext<T, K>(c: Codec<T, K>, records: seq<T>, i: nat)
    requires i < |records|
    ensures JsonlOf(c, records[..i + 1]) == JsonlOf(c, records[..i]) + JsonLine(c, records[i])
  {
    assert records[..i + 1][..i] == records[..i];
  }

  /** Records are written in order, each as one line; one that cannot be marshalled is left out. */
  lemma {:induction false} JsonlJoins<T, K>(c: Codec<T, K>, a: seq<T>, b: seq<T>)
    ensures JsonlOf(c, a + b) == JsonlOf(c, a) + JsonlOf(c, b)
    ensures |b| == 1 ==> JsonlOf(c, b) == (if c.encode(b[0]).Some? then c.encode(b[0]).value + [10] else [])
  {
    if b == [] {
      ConcatEmpty(a);
      ConcatEmpty(JsonlOf(c, a));
    } else {
      var most, last := b[..|b| - 1], b[|b| - 1];
      assert (a + b)[..|a + b| - 1] == a + most;
      JsonlJoins(c, a, most);
      ConcatAssoc(JsonlOf(c, a), JsonlOf(c, most), JsonLine(c, last));
      ConcatEmpty(JsonLine(c, last));
    }
  }

  /** The record can be written as one line, and is read back with the same key. */
  predicate KeepsKey<T, K(==)>(c: Codec<T, K>, r: T)
  {
    var e := c.encode(r);
    && e.Some? && NEWLINE !in e.value
    && var back := c.decode(Token(e.value + [NEWLINE]));
       back.Some? && c.key(back.value) == c.key(r)
  }

  predicate AllKeepKeys<T, K(==)>(c: Codec<T, K>, records: seq<T>)
  {
    forall i :: 0 <= i < |records| ==> KeepsKey(c, records[i])
  }

  lemma TokensSnoc(lines: seq<Bytes>, line: Bytes)
    ensures TokensOf(lines + [line]) == TokensOf(lines) + [Token(line)]
  {
    assert (lines + [line])[..|lines|] == lines;
  }

  /** The complete lines of a file, as a scanner delivers them. */
  function Complete(data: Bytes): seq<Bytes> { TokensOf(LinesFrom(data, 0, false)) }

  /** A scanner also delivers the unterminated rest, if there is one. */
  lemma ScannedIs(data: Bytes)
    ensures Scanned(data) == if Whole(data) then Complete(data) else Complete(data) + [Token(Rest(data))]
  {
    if Whole(data) {
      WholeLinesClose(data);
    } else {
      TornLinesClose(data);
      TokensSnoc(LinesFrom(data, 0, false), Rest(data));
    }
  }

  /** Appending one line glues it to the rest of the file. */
  lemma ScannedSnoc(data: Bytes, text: Bytes)
    requires NEWLINE !in text
    ensures Whole(data + (text + [NEWLINE]))
    ensures Scanned(data + (text + [NEWLINE])) == Complete(data) + [Token(Rest(data) + (text + [NEWLINE]))]
  {
    LineIsGlued(data, text);
    WholeLinesClose(data + (text + [NEWLINE]));
    TokensSnoc(LinesFrom(data, 0, false), Rest(data) + (text + [NEWLINE]));
  }

  lemma KeysOfSnoc<T, K>(c: Codec<T, K>, lines: seq<Bytes>, line: Bytes)
    ensures KeysOf(c, lines + [line])
         == KeysOf(c, lines) + (var r := c.decode(line); if r.Some? then {c.key(r.value)} else {})
  {
    assert (lines + [line])[..|lines|] == lines;
  }

  lemma KeysOfNext<T, K>(c: Codec<T, K>, lines: seq<Bytes>, i: nat)
    requires i < |lines|
    ensures KeysOf(c, lines[..i + 1])
         == KeysOf(c, lines[..i]) + (var r := c.decode(lines[i]); if r.Some? then {c.key(r.value)} else {})
  {
    KeysOfSnoc(c, lines[..i], lines[i]);
    assert lines[..i + 1] == lines[..i] + [lines[i]];
  }

  function SeenIn<T, K>(c: Codec<T, K>, data: Bytes): set<K> { KeysOf(c, Scanned(data)) }

  function CompleteIn<T, K>(c: Codec<T, K>, data: Bytes): set<K> { KeysOf(c, Complete(data)) }

  /** The key that a line holds, as LoadSeen reads it. */
  predicate HoldsKey<T, K(==)>(c: Codec<T, K>, line: Bytes, k: K)
  {
    var r := c.decode(Token(line));
    r.Some? && c.key(r.value) == k
  }

  lemma SeenIs<T, K>(c: Codec<T, K>, data: Bytes, k: K)
    ensures k in SeenIn(c, data) <==> k in CompleteIn(c, data) || (!Whole(data) && HoldsKey(c, Rest(data), k))
  {
    ScannedIs(data);
    if !Whole(data) {
      KeysOfSnoc(c, Complete(data), Token(Rest(data)));
    }
  }

  lemma OneMoreIsSeen<T, K>(c: Codec<T, K>, data: Bytes, r: T, k: K)
    requires KeepsKey(c, r)
    ensures Whole(data + JsonLine(c, r))
    ensures k in SeenIn(c, data + JsonLine(c, r))
        <==> k in CompleteIn(c, data) || HoldsKey(c, Rest(data) + JsonLine(c, r), k)
  {
    var text := c.encode(r).value;
    hide Scanned, Whole, Complete;
    ScannedSnoc(data, text);
    KeysOfSnoc(c, Complete(data), Token(Rest(data) + (text + [NEWLINE])));
  }

  /** What has been appended to a file of whole lines is seen by the next LoadSeen, and
      nothing else is. */
  lemma {:induction false} AppendedIsSeen<T, K>(c: Codec<T, K>, data: Bytes, records: seq<T>, k: K)
    requires Whole(data) && AllKeepKeys(c, records)
    ensures Whole(data + JsonlOf(c, records))
    ensures k in SeenIn(c, data + JsonlOf(c, records)) <==> k in SeenIn(c, data) || HasKey(c, records, k)
  {
    if records == [] {
      ConcatEmpty(data);
    } else {
      hide SeenIn, CompleteIn, Whole, HasKey, JsonLine, KeepsKey, HoldsKey;
      var most, r := records[..|records| - 1], records[|records| - 1];
      assert KeepsKey(c, r) && AllKeepKeys(c, most);
      hide AllKeepKeys;
      AppendedIsSeen(c, data, most, k);
      HasKeyLast(c, records, k);
      ConcatAssoc(data, JsonlOf(c, most), JsonLine(c, r));
      OneMoreIsSeenWhole(c, data + JsonlOf(c, most), r, k);
    }
  }

  lemma OneMoreIsSeenWhole<T, K>(c: Codec<T, K>, data: Bytes, r: T, k: K)
    requires Whole(data) && KeepsKey(c, r)
    ensures Whole(data + JsonLine(c, r))
    ensures k in SeenIn(c, data + JsonLine(c, r)) <==> k in SeenIn(c, data) || c.key(r) == k
  {
    WholeHasNoRest(data);
    OneMoreIsSeen(c, data, r, k);
    SeenIs(c, data, k);
    ConcatEmpty(JsonLine(c, r));
    hide SeenIn, CompleteIn, Whole;
  }

  lemma {:induction false} JsonlOfCons<T, K>(c: Codec<T, K>, records: seq<T>)
    requires records != []
    ensures JsonlOf(c, records) == JsonLine(c, records[0]) + JsonlOf(c, records[1..])
  {
    var n := |records| - 1;
    if n == 0 {
      assert records[..0] == [] && records[1..] == [];
      ConcatEmpty(JsonLine(c, records[0]));
    } else {
      JsonlOfCons(c, records[..n]);
      assert records[..n][1..] == records[1..][..n - 1];
      ConcatAssoc(JsonLine(c, records[0]), JsonlOf(c, records[1..][..n - 1]), JsonLine(c, records[n]));
    }
  }

  /** What has been appended to any file: the first record shares its line with the rest. */
  lemma AppendedIsGlued<T, K>(c: Codec<T, K>, data: Bytes, records: seq<T>, k: K)
    requires records != [] && AllKeepKeys(c, records)
    ensures Whole(data + JsonlOf(c, records))
    ensures k in SeenIn(c, data + JsonlOf(c, records))
         <==> (|| k in CompleteIn(c, data)
               || HoldsKey(c, Rest(data) + JsonLine(c, records[0]), k)
               || HasKey(c, records[1..], k))
  {
    assert KeepsKey(c, records[0]) && AllKeepKeys(c, records[1..]);
    hide SeenIn, CompleteIn, JsonLine, JsonlOf, HoldsKey, KeepsKey, AllKeepKeys;
    JsonlOfCons(c, records);
    ConcatAssoc(data, JsonLine(c, records[0]), JsonlOf(c, records[1..]));
    OneMoreIsSeen(c, data, records[0], k);
    AppendedIsSeen(c, data + JsonLine(c, records[0]), records[1..], k);
  }

  /** Complete lines stay seen, whatever follows them. */
  lemma CompleteStaysSeen<T, K>(c: Codec<T, K>, data: Bytes, more: Bytes, k: K)
    ensures k in CompleteIn(c, data) ==> k in CompleteIn(c, data + more) && k in SeenIn(c, data + more)
  {
    LinesAppend(data, more, 0);
    var later := LinesFrom(data + more, StopAt(data, 0, false), false);
    hide LinesFrom, StopAt;
    TokensConcat(LinesFrom(data, 0, false), later);
    KeysConcat(c, Complete(data), TokensOf(later), k);
    SeenIs(c, data + more, k);
  }

  lemma {:induction false} TokensConcat(a: seq<Bytes>, b: seq<Bytes>)
    ensures TokensOf(a + b) == TokensOf(a) + TokensOf(b)
  {
    if b == [] {
      ConcatEmpty(a);
      ConcatEmpty(TokensOf(a));
    } else {
      var most := b[..|b| - 1];
      assert (a + b)[..|a + b| - 1] == a + most;
      TokensConcat(a, most);
      ConcatAssoc(TokensOf(a), TokensOf(most), [Token(b[|b| - 1])]);
    }
  }

  lemma {:induction false} KeysConcat<T, K>(c: Codec<T, K>, a: seq<Bytes>, b: seq<Bytes>, k: K)
    ensures k in KeysOf(c, a + b) <==> k in KeysOf(c, a) || k in KeysOf(c, b)
  {
    if b == [] {
      ConcatEmpty(a);
    } else {
      var most, last := b[..|b| - 1], b[|b| - 1];
      KeysConcat(c, a, most, k);
      assert a + b == (a + most) + [last] && b == most + [last];
      KeysOfSnoc(c, a + most, last);
      KeysOfSnoc(c, most, last);
    }
  }

  // ----- one run -----

  /** The log: missing, failing while it is scanned, or readable. */
  datatype Log = NoLog | Unreadable | Readable(data: Bytes)

  datatype Fault = NoFault | OpenFails | FlushFails(written: nat)

  datatype Files = Files(jsonl: Option<Bytes>, previous: Option<Bytes>)

  datatype Outcome<T> = Ok(records: seq<T>) | Failed

  /** Everything a run depends on besides the files. */
  datatype Input = Input(log: Log, maxLines: int, append: Fault, renameFails: bool)

  const DEFAULT_MAX_BYTES: nat := 10 * 1024 * 1024

  function Limit(maxBytes: int): int { if maxBytes <= 0 then DEFAULT_MAX_BYTES else maxBytes }

  /** The tail of the log, parsed; None if it cannot be read. */
  function TailRecords<T, K>(c: Codec<T, K>, input: Input): Option<seq<T>>
  {
    if input.log.NoLog? then None
    else if input.maxLines <= 0 then Some([])
    else if input.log.Unreadable? then None
    else Some(Parsed(c, LastN(Scanned(input.log.data), input.maxLines)))
  }

  /** The file after an append of which `fault.written` bytes may be all that got through. */
  function Appended(file: Option<Bytes>, bytes: Bytes, fault: Fault): Option<Bytes>
  {
    match fault
    case NoFault => Some(Content(file) + bytes)
    case OpenFails => file
    case FlushFails(w) => Some(Content(file) + if w < |bytes| then bytes[..w] else bytes)
  }

  function RotateIfNeeded(files: Files, limit: int, renameFails: bool): (Files, bool)
  {
    if files.jsonl.None? || |files.jsonl.value| <= limit then (files, true)
    else if renameFails then (files, false)
    else (Files(None, files.jsonl), true)
  }

  function NewRecords<T, K(==)>(c: Codec<T, K>, files: Files, input: Input): Option<seq<T>>
  {
    var tail := TailRecords(c, input);
    if tail.None? then None else Some(Fresh(c, tail.value, SeenIn(c, Content(files.jsonl))))
  }

  function Run<T, K(==)>(c: Codec<T, K>, maxBytes: int, files: Files, input: Input): (Files, Outcome<T>)
  {
    var records := NewRecords(c, files, input);
    if records.None? then (files, Failed)
    else if records.value == [] then (files, Ok([]))
    else
      var after := files.(jsonl := Appended(files.jsonl, JsonlOf(c, records.value), input.append));
      if !input.append.NoFault? then (after, Failed)
      else
        var (rotated, ok) := RotateIfNeeded(after, Limit(maxBytes), input.renameFails);
        (rotated, if ok then Ok(records.value) else Failed)
  }

  /** A run that returns records has them behind what the file held, and renames the file if that
      made it larger than the limit, which is 10 MiB unless one is set. */
  lemma RunAppendsAndRotates<T, K>(c: Codec<T, K>, maxBytes: int, files: Files, input: Input)
    ensures var (files', o) := Run(c, maxBytes, files, input);
            && (o.Ok? && o.records == [] ==> files' == files)
            && (o.Ok? && o.records != [] ==>
                  var content := Content(files.jsonl) + JsonlOf(c, o.records);
                  files' == if |content| > (if maxBytes > 0 then maxBytes else 10485760)
                            then Files(None, Some(content))
                            else Files(Some(content), files.previous))
  {
    hide JsonlOf, NewRecords;
  }

  /** The collector, updating its files in place. */
  class Collector<T(!new), K(==,!new)> {
    const codec: Codec<T, K>
    const maxBytes: int
    var files: Files

    constructor (codec: Codec<T, K>, maxBytes: int, files: Files)
      ensures this.codec == codec && this.maxBytes == maxBytes && this.files == files
    {
      this.codec := codec;
      this.maxBytes := maxBytes;
      this.files := files;
    }

    method LoadSeen() returns (seen: set<K>)
      ensures seen == SeenIn(codec, Content(files.jsonl))
    {
      seen := {};
      if files.jsonl.None? {
        assert LinesFrom([], 0, true) == [];
        return;
      }
      var lines := Scanned(files.jsonl.value);
      var i := 0;
      while i < |lines|
        invariant 0 <= i <= |lines|
        invariant seen == KeysOf(codec, lines[..i])
      {
        hide KeysOf;
        KeysOfNext(codec, lines, i);
        var v := codec.decode(lines[i]);
        if v.Some? {
          seen := seen + {codec.key(v.value)};
        }
        i := i + 1;
      }
      assert lines[..|lines|] == lines;
    }

    /** The new records of the tail; `seen` grows by their keys on the way. */
    method ParseTail(log: Log, maxLines: int, seen: set<K>) returns (out: Option<seq<T>>)
      ensures out == var tail := TailRecords(codec, Input(log, maxLines, NoFault, false));
                     if tail.None? then None else Some(Fresh(codec, tail.value, seen))
    {
      if log.NoLog? {
        return None;
      }
      var lines := TailLinesReader(if log.Readable? then Scanned(log.data) else [], log.Unreadable?, maxLines);
      if lines.None? {
        return None;
      }
      var records: seq<T> := [];
      var known := seen;
      var i := 0;
      while i < |lines.value|
        invariant 0 <= i <= |lines.value|
        invariant records == Fresh(codec, Parsed(codec, lines.value[..i]), seen)
        invariant forall k :: k in known <==> k in seen || HasKey(codec, Parsed(codec, lines.value[..i]), k)
      {
        var line := lines.value[i];
        NextLine(codec, lines.value, i, seen);
        var v := codec.parse(line);
        if v.Some? && codec.key(v.value) !in known {
          known := known + {codec.key(v.value)};
          records := records + [v.value];
        }
        i := i + 1;
      }
      assert lines.value[..|lines.value|] == lines.value;
      return Some(records);
    }

    method AppendJsonl(records: seq<T>, fault: Fault) returns (ok: bool)
      modifies `files
      ensures records == [] ==> ok && files == old(files)
      ensures records != [] ==> ok == fault.NoFault?
                                && files == old(files).(jsonl := Appended(old(files.jsonl), JsonlOf(codec, records),
                                                                          fault))
    {
      if records == [] {
        return true;
      }
      if fault.OpenFails? {
        return false;
      }
      var w: Bytes := [];
      var i := 0;
      assert JsonlOf(codec, records[..0]) == [];
      hide JsonlOf, JsonLine;
      while i < |records|
        invariant 0 <= i <= |records|
        invariant files == old(files) && w == JsonlOf(codec, records[..i])
      {
        JsonlNext(codec, records, i);
        w := w + JsonLine(codec, records[i]);
        i := i + 1;
      }
      assert records[..|records|] == records;
      files := files.(jsonl := Appended(files.jsonl, w, fault));
      return fault.NoFault?;
    }

    method Collect(input: Input) returns (r: Outcome<T>)
      modifies `files
      ensures (files, r) == Run(codec, maxBytes, old(files), input)
    {
      var seen := LoadSeen();
      var records := ParseTail(input.log, input.maxLines, seen);
      if records.None? {
        return Failed;
      }
      if records.value != [] {
        var ok := AppendJsonl(records.value, input.append);
        if !ok {
          return Failed;
        }
        var (rotated, renamed) := RotateIfNeeded(files, Limit(maxBytes), input.renameFails);
        files := rotated;
        if !renamed {
          return Failed;
        }
      }
      return Ok(records.value);
    }
  }

  /** What the next line of the tail adds. */
  lemma NextLine<T(!new), K(!new)>(c: Codec<T, K>, lines: seq<Bytes>, i: nat, seen: set<K>)
    requires i < |lines|
    ensures var v, p := c.parse(lines[i]), Parsed(c, lines[..i]);
            if v.None? then Parsed(c, lines[..i + 1]) == p
            else
              && (forall k :: HasKey(c, Parsed(c, lines[..i + 1]), k) <==> HasKey(c, p, k) || c.key(v.value) == k)
              && Fresh(c, Parsed(c, lines[..i + 1]), seen)
                 == Fresh(c, p, seen) + if c.key(v.value) in seen || HasKey(c, p, c.key(v.value)) then [] else [v.value]
  {
    assert lines[..i + 1][..i] == lines[..i];
    var p := Parsed(c, lines[..i]);
    ConcatEmpty(p);
    if c.parse(lines[i]).Some? {
      var r := c.parse(lines[i]).value;
      assert Parsed(c, lines[..i + 1]) == p + [r];
      assert (p + [r])[..|p|] == p;
      ConcatEmpty(Fresh(c, p, seen));
      FirstIsNew(c, p + [r], seen, |p|);
      forall k
        ensures HasKey(c, p + [r], k) <==> HasKey(c, p, k) || c.key(r) == k
      {
        HasKeySnoc(c, p, r, k);
      }
    }
  }
}
