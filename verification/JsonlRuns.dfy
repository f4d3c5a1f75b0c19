/** What a log collector delivers over its runs: nothing twice, and everything that an unchanged
    log still holds exactly once - as long as its jsonl file is neither rotated nor torn. */
module JsonlRuns {
  import opened Basics
  import opened Lines
  import opened RingTails
  import opened JsonlCollector

  /** Every record the parser produces survives the jsonl file with its key. */
  ghost predicate KeepsKeys<T, K>(c: Codec<T, K>)
  {
    forall line: Bytes :: c.parse(line).Some? ==> KeepsKey(c, c.parse(line).value)
  }

  lemma {:induction false} ParsedKeepKeys<T, K>(c: Codec<T, K>, lines: seq<Bytes>)
    requires KeepsKeys(c)
    ensures AllKeepKeys(c, Parsed(c, lines))
  {
    hide KeepsKey;
    if lines != [] {
      ParsedKeepKeys(c, lines[..|lines| - 1]);
    }
  }

  lemma {:induction false} FreshKeepKeys<T, K>(c: Codec<T, K>, records: seq<T>, seen: set<K>)
    requires AllKeepKeys(c, records)
    ensures AllKeepKeys(c, Fresh(c, records, seen))
  {
    hide KeepsKey, IsFirst;
    if records != [] {
      FreshKeepKeys(c, records[..|records| - 1], seen);
    }
  }

  lemma NewRecordsKeepKeys<T, K>(c: Codec<T, K>, files: Files, input: Input)
    requires KeepsKeys(c)
    ensures var r := NewRecords(c, files, input); r.Some? ==> AllKeepKeys(c, r.value)
  {
    var tail := TailRecords(c, input);
    if tail.Some? {
      if input.log.Readable? {
        ParsedKeepKeys(c, LastN(Scanned(input.log.data), if input.maxLines <= 0 then 0 else input.maxLines));
      }
      hide KeepsKey, Scanned;
      FreshKeepKeys(c, tail.value, SeenIn(c, Content(files.jsonl)));
    }
  }

  /** Nothing is new exactly if every parsed key is known already. */
  lemma FreshIsEmpty<T, K>(c: Codec<T, K>, records: seq<T>, seen: set<K>)
    ensures Fresh(c, records, seen) == [] <==> forall i :: 0 <= i < |records| ==> c.key(records[i]) in seen
  {
    var news := Fresh(c, records, seen);
    forall i | 0 <= i < |records|
      ensures news == [] ==> c.key(records[i]) in seen
    {
      FreshIsExact(c, records, seen, c.key(records[i]));
    }
    if news != [] {
      FreshIsExact(c, records, seen, c.key(news[0]));
    }
  }

  /** The run appends its records and then moves the file away because it has become too large. */
  predicate Rotates<T, K(==)>(c: Codec<T, K>, maxBytes: int, files: Files, input: Input)
  {
    var r := NewRecords(c, files, input);
    && r.Some? && r.value != [] && input.append.NoFault? && !input.renameFails
    && |Content(files.jsonl)| + |JsonlOf(c, r.value)| > Limit(maxBytes)
  }

  /** A record appended to the file is read back from the line it shares with the rest. */
  predicate GlueReads<T, K(==)>(c: Codec<T, K>, data: Bytes, r: T)
  {
    HoldsKey(c, Rest(data) + JsonLine(c, r), c.key(r))
  }

  /** The unterminated rest, if there is one, holds none of these keys that no complete line holds. */
  predicate RestIsSpare<T, K(==)>(c: Codec<T, K>, data: Bytes, wanted: K -> bool)
  {
    var r := c.decode(Token(Rest(data)));
    Whole(data) || r.None? || c.key(r.value) in CompleteIn(c, data) || !wanted(c.key(r.value))
  }

  /** The run neither rotates nor spoils a line: it appends nothing, or behind a rest that is not
      needed and with which the first new record can still be read. */
  predicate Smooth<T, K(==)>(c: Codec<T, K>, maxBytes: int, files: Files, input: Input)
  {
    var r := NewRecords(c, files, input);
    && !Rotates(c, maxBytes, files, input)
    && (r.None? || r.value == [] || input.append.OpenFails?
        || (&& RestIsSpare(c, Content(files.jsonl), k => true)
            && (input.append.NoFault? ==> GlueReads(c, Content(files.jsonl), r.value[0]))))
  }

  lemma WholeReadsGlue<T, K>(c: Codec<T, K>, data: Bytes, r: T)
    requires Whole(data) && KeepsKey(c, r)
    ensures RestIsSpare(c, data, k => true) && GlueReads(c, data, r)
  {
    WholeHasNoRest(data);
    ConcatEmpty(JsonLine(c, r));
    hide Rest, Whole;
  }

  /** A file of whole lines meets what Smooth asks of the rest. */
  lemma WholeIsSmooth<T, K>(c: Codec<T, K>, maxBytes: int, files: Files, input: Input)
    requires KeepsKeys(c) && Whole(Content(files.jsonl)) && !Rotates(c, maxBytes, files, input)
    ensures Smooth(c, maxBytes, files, input)
  {
    NewRecordsKeepKeys(c, files, input);
    var r := NewRecords(c, files, input);
    hide NewRecords, Rotates, KeepsKeys, KeepsKey, RestIsSpare, GlueReads, Whole;
    if r.Some? && r.value != [] {
      assert KeepsKey(c, r.value[0]);
      WholeReadsGlue(c, Content(files.jsonl), r.value[0]);
    }
  }

  lemma SpareRestIsNotSeen<T, K>(c: Codec<T, K>, data: Bytes, k: K)
    requires RestIsSpare(c, data, k => true)
    ensures k in SeenIn(c, data) <==> k in CompleteIn(c, data)
  {
    SeenIs(c, data, k);
  }

  lemma GluedKeys<T, K>(c: Codec<T, K>, data: Bytes, records: seq<T>, k: K)
    requires records != [] && AllKeepKeys(c, records)
    requires RestIsSpare(c, data, k => true) && GlueReads(c, data, records[0])
    ensures k in SeenIn(c, data + JsonlOf(c, records)) <==> k in SeenIn(c, data) || HasKey(c, records, k)
  {
    AppendedIsGlued(c, data, records, k);
    SpareRestIsNotSeen(c, data, k);
    HasKeyCons(c, records, k);
    hide SeenIn, CompleteIn, HasKey, JsonlOf, RestIsSpare, AllKeepKeys;
  }

  lemma HasKeyCons<T, K>(c: Codec<T, K>, records: seq<T>, k: K)
    requires records != []
    ensures HasKey(c, records, k) <==> c.key(records[0]) == k || HasKey(c, records[1..], k)
  {
    assert records == [records[0]] + records[1..];
    HasKeyConcat(c, [records[0]], records[1..], k);
    assert HasKey(c, [records[0]], k) <==> c.key([records[0]][0]) == k;
  }

  /** After a smooth run the file holds the old keys, and those of the returned records. */
  lemma RunRecordsKeys<T, K>(c: Codec<T, K>, maxBytes: int, files: Files, input: Input, k: K)
    requires KeepsKeys(c) && Smooth(c, maxBytes, files, input)
    ensures var (after, outcome) := Run(c, maxBytes, files, input);
            && (k in SeenIn(c, Content(files.jsonl)) ==> k in SeenIn(c, Content(after.jsonl)))
            && (outcome.Ok? ==>
                  (k in SeenIn(c, Content(after.jsonl))
                   <==> k in SeenIn(c, Content(files.jsonl)) || HasKey(c, outcome.records, k)))
  {
    NewRecordsKeepKeys(c, files, input);
    var records, data := NewRecords(c, files, input), Content(files.jsonl);
    hide NewRecords, SeenIn, CompleteIn, KeepsKeys, AllKeepKeys, RestIsSpare, GlueReads, JsonlOf;
    if records.Some? && records.value != [] && !input.append.OpenFails? {
      SpareRestIsNotSeen(c, data, k);
      var bytes := JsonlOf(c, records.value);
      if input.append.NoFault? {
        GluedKeys(c, data, records.value, k);
      } else {
        CompleteStaysSeen(c, data, if input.append.written < |bytes| then bytes[..input.append.written] else bytes, k);
      }
    }
  }

  /** The records returned by a series of runs, and the files they leave. */
  function RunAll<T, K(==)>(c: Codec<T, K>, maxBytes: int, files: Files, inputs: seq<Input>): (Files, seq<T>)
    decreases |inputs|
  {
    if inputs == [] then (files, [])
    else
      var (after, outcome) := Run(c, maxBytes, files, inputs[0]);
      var (end, rest) := RunAll(c, maxBytes, after, inputs[1..]);
      (end, Returned(outcome) + rest)
  }

  predicate AllSmooth<T, K(==)>(c: Codec<T, K>, maxBytes: int, files: Files, inputs: seq<Input>)
    decreases |inputs|
  {
    inputs == []
    || (Smooth(c, maxBytes, files, inputs[0])
        && AllSmooth(c, maxBytes, Run(c, maxBytes, files, inputs[0]).0, inputs[1..]))
  }

  function Returned<T>(outcome: Outcome<T>): seq<T> { if outcome.Ok? then outcome.records else [] }

  lemma RunReturnsDistinct<T, K>(c: Codec<T, K>, maxBytes: int, files: Files, input: Input)
    ensures DistinctKeys(c, Returned(Run(c, maxBytes, files, input).1))
  {
    var tail := TailRecords(c, input);
    if tail.Some? {
      hide SeenIn, TailRecords;
      FreshIsDistinct(c, tail.value, SeenIn(c, Content(files.jsonl)));
    }
  }

  lemma RunReturnsNew<T, K>(c: Codec<T, K>, maxBytes: int, files: Files, input: Input, k: K)
    ensures HasKey(c, Returned(Run(c, maxBytes, files, input).1), k) ==> k !in SeenIn(c, Content(files.jsonl))
  {
    var tail := TailRecords(c, input);
    if tail.Some? {
      hide SeenIn, TailRecords;
      FreshIsExact(c, tail.value, SeenIn(c, Content(files.jsonl)), k);
    }
  }

  lemma DistinctConcat<T, K>(c: Codec<T, K>, a: seq<T>, b: seq<T>)
    requires DistinctKeys(c, a) && DistinctKeys(c, b)
    requires forall i :: 0 <= i < |b| ==> !HasKey(c, a, c.key(b[i]))
    ensures DistinctKeys(c, a + b)
  {
    forall i, j | 0 <= i < j < |a + b|
      ensures c.key((a + b)[i]) != c.key((a + b)[j])
    {
      if i < |a| <= j {
        assert !HasKey(c, a, c.key(b[j - |a|]));
      }
    }
  }

  /** No key of the first run comes back later, if later runs return only unknown keys. */
  lemma FirstRunStaysApart<T(!new), K(!new)>(c: Codec<T, K>, maxBytes: int, files: Files, input: Input, rest: seq<T>)
    requires KeepsKeys(c) && Smooth(c, maxBytes, files, input)
    requires DistinctKeys(c, rest)
    requires forall k :: HasKey(c, rest, k) ==> k !in SeenIn(c, Content(Run(c, maxBytes, files, input).0.jsonl))
    ensures DistinctKeys(c, Returned(Run(c, maxBytes, files, input).1) + rest)
    ensures forall k :: HasKey(c, Returned(Run(c, maxBytes, files, input).1) + rest, k) ==>
                          k !in SeenIn(c, Content(files.jsonl))
  {
    var first := Returned(Run(c, maxBytes, files, input).1);
    RunReturnsDistinct(c, maxBytes, files, input);
    forall k
      ensures HasKey(c, first, k) ==> !HasKey(c, rest, k) && k !in SeenIn(c, Content(files.jsonl))
      ensures HasKey(c, rest, k) ==> k !in SeenIn(c, Content(files.jsonl))
      ensures HasKey(c, first + rest, k) <==> HasKey(c, first, k) || HasKey(c, rest, k)
    {
      NothingHasNoKey(c, k);
      hide Run, SeenIn, HasKey, KeepsKeys, Smooth;
      RunRecordsKeys(c, maxBytes, files, input, k);
      RunReturnsNew(c, maxBytes, files, input, k);
      HasKeyConcat(c, first, rest, k);
    }
    forall i | 0 <= i < |rest|
      ensures !HasKey(c, first, c.key(rest[i]))
    {
      assert HasKey(c, rest, c.key(rest[i]));
    }
    hide Run, SeenIn, HasKey, KeepsKeys, Smooth;
    DistinctConcat(c, first, rest);
  }

  lemma NothingHasNoKey<T, K>(c: Codec<T, K>, k: K)
    ensures !HasKey(c, [], k)
  {
  }

  /** Over any number of runs on logs that grow, shrink or change in any way, no key is
      returned twice, nor one that was in the file before. */
  lemma {:induction false} NoKeyTwice<T(!new), K(!new)>(c: Codec<T, K>, maxBytes: int, files: Files, inputs: seq<Input>)
    requires KeepsKeys(c) && AllSmooth(c, maxBytes, files, inputs)
    ensures var returned := RunAll(c, maxBytes, files, inputs).1;
            && DistinctKeys(c, returned)
            && forall k :: HasKey(c, returned, k) ==> k !in SeenIn(c, Content(files.jsonl))
    decreases |inputs|
  {
    if inputs != [] {
      var after := Run(c, maxBytes, files, inputs[0]).0;
      hide Run, SeenIn, DistinctKeys, HasKey, KeepsKeys, Smooth;
      NoKeyTwice(c, maxBytes, after, inputs[1..]);
      FirstRunStaysApart(c, maxBytes, files, inputs[0], RunAll(c, maxBytes, after, inputs[1..]).1);
    }
  }

  /** With an unchanged log, and no I/O failing, the second run returns nothing exactly if the
      first returned nothing, or did not rotate the file away and spoiled no line: the file was
      whole before, or the line that the first new record shares with the torn rest still reads
      as that record, and the rest held no key of the tail that is nowhere else. */
  lemma SecondRunReturnsNothingIff<T, K>(c: Codec<T, K>, maxBytes: int, files: Files, log: Bytes, maxLines: int)
    requires KeepsKeys(c)
    ensures var input := Input(Readable(log), maxLines, NoFault, false);
            var data, tail := Content(files.jsonl), TailRecords(c, input).value;
            var (after, first) := Run(c, maxBytes, files, input);
            var second := Run(c, maxBytes, after, input).1;
            && first.Ok? && second.Ok?
            && (second.records == [] <==>
                  || first.records == []
                  || (!Rotates(c, maxBytes, files, input)
                      && (Whole(data)
                          || (GlueReads(c, data, first.records[0]) && RestIsSpare(c, data, k => HasKey(c, tail, k))))))
  {
    var input := Input(Readable(log), maxLines, NoFault, false);
    var tail, data := TailRecords(c, input).value, Content(files.jsonl);
    NewRecordsKeepKeys(c, files, input);
    var news := NewRecords(c, files, input).value;
    hide SeenIn, KeepsKeys, Whole, AllKeepKeys, Fresh, JsonlOf, GlueReads, RestIsSpare;
    if Rotates(c, maxBytes, files, input) {
      NothingSeenInNothing(c);
      FreshIsEmpty(c, tail, SeenIn(c, data));
      FreshIsEmpty(c, tail, {});
    } else if news != [] {
      WrittenTailIsKnownIff(c, data, tail);
    }
  }

  lemma NothingSeenInNothing<T, K>(c: Codec<T, K>)
    ensures SeenIn(c, Content(None)) == {}
  {
    assert LinesFrom([], 0, true) == [];
  }

  /** A key of the tail is known after the new records were written, unless it is that of the
      first one or that of the rest and the shared line does not read as it. */
  lemma WrittenKeyIsKnown<T, K>(c: Codec<T, K>, data: Bytes, tail: seq<T>, k: K)
    requires var news := Fresh(c, tail, SeenIn(c, data)); news != [] && AllKeepKeys(c, news)
    requires HasKey(c, tail, k)
    ensures var news := Fresh(c, tail, SeenIn(c, data));
            k in SeenIn(c, data + JsonlOf(c, news)) <==>
              if k == c.key(news[0]) then GlueReads(c, data, news[0])
              else if k in CompleteIn(c, data) || HasKey(c, news, k) then true
              else HoldsKey(c, Rest(data) + JsonLine(c, news[0]), k)
  {
    var news := Fresh(c, tail, SeenIn(c, data));
    FreshIsDistinct(c, tail, SeenIn(c, data));
    FreshIsExact(c, tail, SeenIn(c, data), c.key(news[0]));
    assert HasKey(c, news, c.key(news[0]));
    assert !HasKey(c, news[1..], c.key(news[0]));
    AppendedIsGlued(c, data, news, k);
    SeenIs(c, data, c.key(news[0]));
    HasKeyCons(c, news, k);
    hide SeenIn, CompleteIn, HasKey, JsonlOf, Fresh, AllKeepKeys;
  }

  lemma WrittenTailIsKnownIff<T, K>(c: Codec<T, K>, data: Bytes, tail: seq<T>)
    requires var news := Fresh(c, tail, SeenIn(c, data)); news != [] && AllKeepKeys(c, news)
    ensures var news := Fresh(c, tail, SeenIn(c, data));
            Fresh(c, tail, SeenIn(c, data + JsonlOf(c, news))) == [] <==>
              Whole(data) || (GlueReads(c, data, news[0]) && RestIsSpare(c, data, k => HasKey(c, tail, k)))
  {
    var seen := SeenIn(c, data);
    var news := Fresh(c, tail, seen);
    var seen' := SeenIn(c, data + JsonlOf(c, news));
    FreshIsEmpty(c, tail, seen');
    WholeGlueReads(c, data, news[0]);
    hide SeenIn, CompleteIn, AllKeepKeys, Fresh, JsonlOf, GlueReads, Whole;
    var k0 := c.key(news[0]);
    FreshIsExact(c, tail, seen, k0);
    assert HasKey(c, news, k0);
    WrittenKeyIsKnown(c, data, tail, k0);
    if Whole(data) || (GlueReads(c, data, news[0]) && RestIsSpare(c, data, k => HasKey(c, tail, k))) {
      forall i | 0 <= i < |tail|
        ensures c.key(tail[i]) in seen'
      {
        var k := c.key(tail[i]);
        assert HasKey(c, tail, k);
        WrittenKeyIsKnown(c, data, tail, k);
        FreshIsExact(c, tail, seen, k);
        SeenIs(c, data, k);
      }
    } else if GlueReads(c, data, news[0]) {
      var kr := c.key(c.decode(Token(Rest(data))).value);
      WrittenKeyIsKnown(c, data, tail, kr);
      FreshIsExact(c, tail, seen, kr);
      SeenIs(c, data, kr);
      GlueReadsOnly(c, data, news[0], kr);
    }
  }

  lemma WholeGlueReads<T, K>(c: Codec<T, K>, data: Bytes, r: T)
    requires KeepsKey(c, r)
    ensures Whole(data) ==> GlueReads(c, data, r)
  {
    WholeHasNoRest(data);
    ConcatEmpty(JsonLine(c, r));
  }

  lemma GlueReadsOnly<T, K>(c: Codec<T, K>, data: Bytes, r: T, k: K)
    requires GlueReads(c, data, r)
    ensures HoldsKey(c, Rest(data) + JsonLine(c, r), k) <==> k == c.key(r)
  {
  }

  /** The lines of the first records come first in what is written. */
  lemma {:induction false} JsonlPrefix<T, K>(c: Codec<T, K>, records: seq<T>, n: nat)
    requires n <= |records|
    ensures JsonlOf(c, records[..n]) <= JsonlOf(c, records)
  {
    if n < |records| {
      var most := records[..|records| - 1];
      JsonlPrefix(c, most, n);
      assert most[..n] == records[..n];
    } else {
      assert records[..n] == records;
    }
  }

  lemma LastWrittenIsComplete<T, K>(c: Codec<T, K>, data: Bytes, records: seq<T>)
    requires records != [] && AllKeepKeys(c, records) && (|records| == 1 ==> GlueReads(c, data, records[0]))
    ensures c.key(records[|records| - 1]) in CompleteIn(c, data + JsonlOf(c, records))
  {
    var k := c.key(records[|records| - 1]);
    assert |records| > 1 ==> HasKey(c, records[1..], k) by {
      assert |records| > 1 ==> records[1..][|records| - 2] == records[|records| - 1];
    }
    hide SeenIn, CompleteIn, JsonlOf, KeepsKey, HasKey, AllKeepKeys;
    AppendedIsGlued(c, data, records, k);
    SeenIs(c, data + JsonlOf(c, records), k);
  }

  /** The bytes of an append that came through. */
  function Through(bytes: Bytes, written: nat): Bytes { if written < |bytes| then bytes[..written] else bytes }

  lemma ThroughExtends(data: Bytes, bytes: Bytes, head: Bytes, written: nat) returns (more: Bytes)
    requires head <= bytes && |head| <= written
    ensures data + Through(bytes, written) == (data + head) + more
  {
    var through := Through(bytes, written);
    more := through[|head|..];
    assert through == head + more;
    ConcatAssoc(data, head, more);
  }

  /** A record whose line got through before the flush failed is seen from then on. */
  lemma WrittenBeforeFailureIsSeen<T, K>(c: Codec<T, K>, data: Bytes, news: seq<T>, i: nat, written: nat)
    requires i < |news| && AllKeepKeys(c, news) && |JsonlOf(c, news[..i + 1])| <= written
    requires i == 0 ==> GlueReads(c, data, news[0])
    ensures c.key(news[i]) in SeenIn(c, data + Through(JsonlOf(c, news), written))
  {
    var done := news[..i + 1];
    assert AllKeepKeys(c, done);
    hide SeenIn, CompleteIn, JsonlOf, AllKeepKeys, GlueReads, Through;
    JsonlPrefix(c, news, i + 1);
    LastWrittenIsComplete(c, data, done);
    var more := ThroughExtends(data, JsonlOf(c, news), JsonlOf(c, done), written);
    CompleteStaysSeen(c, data + JsonlOf(c, done), more, c.key(news[i]));
  }

  lemma FailedFlushLeaves<T, K>(c: Codec<T, K>, maxBytes: int, files: Files, input: Input)
    requires input.append.FlushFails? && NewRecords(c, files, input).Some? && NewRecords(c, files, input).value != []
    ensures var (after, outcome) := Run(c, maxBytes, files, input);
            && outcome.Failed?
            && Content(after.jsonl)
               == Content(files.jsonl) + Through(JsonlOf(c, NewRecords(c, files, input).value), input.append.written)
  {
    hide NewRecords, JsonlOf;
  }

  /** Records whose lines reached the file although the flush then reported an error are
      returned by no run at all: not by the failing one, and by none of any smooth runs after
      it, on whatever logs. */
  lemma FailedFlushIsNeverReturned<T(!new), K(!new)>(c: Codec<T, K>, maxBytes: int, files: Files, input: Input, i: nat,
                                                     later: seq<Input>)
    requires KeepsKeys(c) && input.append.FlushFails? && NewRecords(c, files, input).Some?
    requires var news := NewRecords(c, files, input).value;
             i < |news| && |JsonlOf(c, news[..i + 1])| <= input.append.written
             && (i == 0 ==> GlueReads(c, Content(files.jsonl), news[0]))
    requires AllSmooth(c, maxBytes, Run(c, maxBytes, files, input).0, later)
    ensures Run(c, maxBytes, files, input).1.Failed?
    ensures var k := c.key(NewRecords(c, files, input).value[i]);
            !HasKey(c, RunAll(c, maxBytes, Run(c, maxBytes, files, input).0, later).1, k)
  {
    NewRecordsKeepKeys(c, files, input);
    hide NewRecords, Run, RunAll, AllSmooth, JsonlOf, SeenIn, GlueReads, AllKeepKeys, HasKey, KeepsKeys, Through,
        DistinctKeys;
    FailedFlushLeaves(c, maxBytes, files, input);
    WrittenBeforeFailureIsSeen(c, Content(files.jsonl), NewRecords(c, files, input).value, i, input.append.written);
    NoKeyTwice(c, maxBytes, Run(c, maxBytes, files, input).0, later);
  }

  // ----- a torn file -----

  /** Lines that are their own records and keys. */
  function Plain(): Codec<Bytes, Bytes>
  {
    Codec(line => if NEWLINE in line || Token(line) != line then None else Some(line),
          record => record, record => Some(record), line => Some(line))
  }

  lemma PlainKeepsKeys()
    ensures KeepsKeys(Plain())
  {
    forall line: Bytes | Plain().parse(line).Some?
      ensures KeepsKey(Plain(), line)
    {
      PlainLineReadsBack(line);
    }
  }

  lemma PlainLineReadsBack(line: Bytes)
    requires Token(line) == line
    ensures Token(line + [NEWLINE]) == line
  {
    LineEndsAreCut(line);
  }

  /** The run that the condition rules out. A flush fails after one byte of a line; the next
      record, of another log, is glued to that byte, and the next run on the unchanged log
      returns it again - without a rotation and without another failure. */
  lemma TornFileReturnsAgain(c: Codec<Bytes, Bytes>)
    requires c == Plain()
    ensures KeepsKeys(c)
    ensures Run(c, 0, Files(None, None), Input(Readable([1, 3, NEWLINE]), 9, FlushFails(1), false))
            == (Files(Some([1]), None), Failed)
    ensures var good := Input(Readable([2, NEWLINE]), 9, NoFault, false);
            RunAll(c, 0, Files(Some([1]), None), [good, good]).1 == [[2], [2]]
  {
    PlainKeepsKeys();
    hide KeepsKeys, Run, SeenIn, Plain;
    var torn := Input(Readable([1, 3, NEWLINE]), 9, FlushFails(1), false);
    var good := Input(Readable([2, NEWLINE]), 9, NoFault, false);
    NothingSeenInNothing(c);
    assert [1, 3] + [NEWLINE] == [1, 3, NEWLINE] && [] + [1, 3, NEWLINE][..1] == [1];
    PlainRun(Files(None, None), torn, [1, 3], {});
    PlainSees([1]);
    PlainRun(Files(Some([1]), None), good, [2], {[1]});
    PlainSees([1, 2]);
    assert [2] + [NEWLINE] == [2, NEWLINE] && [1] + [2, NEWLINE] == [1, 2] + [NEWLINE] == [1, 2, NEWLINE];
    PlainRun(Files(Some([1, 2, NEWLINE]), None), good, [2], {[1, 2]});
    ReturnsTwice(c, Files(Some([1]), None), good, [2]);
  }

  lemma ReturnsTwice<T, K>(c: Codec<T, K>, files: Files, input: Input, r: T)
    requires Run(c, 0, files, input).1 == Ok([r])
    requires Run(c, 0, Run(c, 0, files, input).0, input).1 == Ok([r])
    ensures RunAll(c, 0, files, [input, input]).1 == [r, r]
  {
    var after := Run(c, 0, files, input).0;
    var last := Run(c, 0, after, input).0;
    assert [input, input][1..] == [input] && [input][1..] == [];
    assert RunAll(c, 0, last, []).1 == [];
    assert RunAll(c, 0, after, [input]).1 == [r] + RunAll(c, 0, last, []).1;
    hide Run;
  }

  lemma PlainSees(text: Bytes)
    requires NEWLINE !in text && text != [] && text[|text| - 1] != CARRIAGE_RETURN
    ensures SeenIn(Plain(), text) == {text}
    ensures SeenIn(Plain(), text + [NEWLINE]) == {text}
  {
    ScanOne(text);
    assert KeysOf(Plain(), [text]) == {text} by {
      assert [text][..0] == [];
    }
    hide Scanned;
  }

  lemma PlainReads(text: Bytes, seen: set<Bytes>)
    requires text !in seen && NEWLINE !in text && Token(text) == text
    ensures Fresh(Plain(), Parsed(Plain(), [text]), seen) == [text]
    ensures JsonlOf(Plain(), [text]) == text + [NEWLINE]
  {
    assert [text][..0] == [];
    assert Parsed(Plain(), [text]) == [text];
    ConcatEmpty(text + [NEWLINE]);
  }

  lemma PlainNews(files: Files, input: Input, text: Bytes, seen: set<Bytes>)
    requires NEWLINE !in text && text != [] && text[|text| - 1] != CARRIAGE_RETURN
    requires input.log == Readable(text + [NEWLINE]) && input.maxLines > 0
    requires SeenIn(Plain(), Content(files.jsonl)) == seen && text !in seen
    ensures NewRecords(Plain(), files, input) == Some([text]) && JsonlOf(Plain(), [text]) == text + [NEWLINE]
  {
    assert Token(text) == text;
    hide Fresh, Parsed, JsonlOf, SeenIn, Scanned, Plain, Token;
    ScanOne(text);
    PlainReads(text, seen);
    assert LastN([text], input.maxLines) == [text];
  }

  /** A run on a log of one line whose key is not in the file. */
  lemma PlainRun(files: Files, input: Input, text: Bytes, seen: set<Bytes>)
    requires NEWLINE !in text && text != [] && text[|text| - 1] != CARRIAGE_RETURN
    requires input.log == Readable(text + [NEWLINE]) && input.maxLines > 0
    requires SeenIn(Plain(), Content(files.jsonl)) == seen && text !in seen
    requires |Content(files.jsonl)| + |text| < 100
    ensures Run(Plain(), 0, files, input) ==
              if input.append.NoFault?
                  then (files.(jsonl := Some(Content(files.jsonl) + (text + [NEWLINE]))), Ok([text]))
              else (files.(jsonl := Appended(files.jsonl, text + [NEWLINE], input.append)), Failed)
  {
    hide NewRecords, JsonlOf, SeenIn, Plain;
    PlainNews(files, input, text, seen);
  }

  lemma ScanOne(text: Bytes)
    requires NEWLINE !in text && text != [] && text[|text| - 1] != CARRIAGE_RETURN
    ensures Scanned(text + [NEWLINE]) == [text]
    ensures Scanned(text) == [text]
  {
    TokenOfOne(text);
    OneLineOnly(text);
    hide Token, LinesFrom, Rest, Scanned, Whole, LastLineEnd;
    ConcatEmpty(text + [NEWLINE]);
    ScannedSnoc([], text);
    ScannedIs(text);
    ConcatEmpty([text]);
  }

  lemma TokenOfOne(text: Bytes)
    requires text != [] && text[|text| - 1] != NEWLINE && text[|text| - 1] != CARRIAGE_RETURN
    ensures Token(text + [NEWLINE]) == text && Token(text) == text
  {
    assert (text + [NEWLINE])[..|text|] == text;
  }

  lemma OneLineOnly(text: Bytes)
    requires NEWLINE !in text && text != []
    ensures !Whole(text) && Rest(text) == text && Complete(text) == [] && Rest([]) == [] && Complete([]) == []
  {
    assert LastLineEnd(text) == 0;
    assert LinesFrom(text, 0, false) == [] && LinesFrom([], 0, false) == [];
  }
}
