/** Reading a growing log round by round comes to the same as reading it once. */
module NextcloudIncremental {
  import opened Basics
  import opened Lines
  import opened NextcloudModel

  /** What happens between two reads, and the allowance of the second one. */
  datatype Round = Round(appended: Bytes, meter: Meter)

  function Grown(s: Bytes, rounds: seq<Round>): (all: Bytes)
    ensures |all| >= |s|
    decreases |rounds|
  {
    if rounds == [] then s else Grown(s + rounds[0].appended, rounds[1..])
  }

  datatype Progress = Progress(offset: nat, events: seq<NCEvent>, more: bool)

  /** Reads at the successive returned offsets; `more` is that of the last read. */
  function ReadRounds(k: Codec, source: string, s: Bytes, i: nat, more: bool, rounds: seq<Round>): (p: Progress)
    requires i <= |s|
    ensures p.offset <= |Grown(s, rounds)|
    decreases |rounds|
  {
    if rounds == [] then Progress(i, [], more)
    else
      var s' := s + rounds[0].appended;
      var r := Scan(k, source, s', i, false, rounds[0].meter);
      var p := ReadRounds(k, source, s', r.offset, r.more, rounds[1..]);
      p.(events := r.events + p.events)
  }

  lemma {:induction false} GrownExtends(s: Bytes, rounds: seq<Round>) returns (tail: Bytes)
    ensures Grown(s, rounds) == s + tail
    decreases |rounds|
  {
    if rounds == [] {
      tail := [];
      ConcatEmpty(s);
    } else {
      var rest := GrownExtends(s + rounds[0].appended, rounds[1..]);
      tail := rounds[0].appended + rest;
      ConcatAssoc(s, rounds[0].appended, rest);
    }
  }

  /** What one read consumed stays consumed, and what it left stays ahead, however the file grows. */
  lemma ReadThenGrow(k: Codec, source: string, s: Bytes, i: nat, m: Meter, tail: Bytes)
    requires i <= |s|
    ensures var r := Scan(k, source, s, i, false, m);
            && Harvest(k, source, m.max, LinesFrom(s + tail, i, false))
               == r.events + Harvest(k, source, m.max, LinesFrom(s + tail, r.offset, false))
            && StopAt(s + tail, r.offset, false) == StopAt(s + tail, i, false)
  {
    var r := Scan(k, source, s, i, false, m);
    ScanConsumes(k, source, s, i, false, m);
    LinesAppend(s, tail, i);
    LinesAppend(s, tail, r.offset);
    var later := LinesFrom(s + tail, StopAt(s, i, false), false);
    var consumed, left := LinesBetween(s, i, r.offset), LinesFrom(s, r.offset, false);
    hide Scan, LinesFrom, LinesBetween, StopAt, Harvest;
    ConcatAssoc(consumed, left, later);
    HarvestConcat(k, source, m.max, consumed, left + later);
  }

  /** The events sent so far, followed by those of the lines still ahead, are always the
      events of the whole file. */
  lemma {:induction false} RoundsLoseNothing(k: Codec, source: string, max: nat, s: Bytes, i: nat, more: bool,
                                             rounds: seq<Round>)
    requires i <= |s| && forall r :: r in rounds ==> r.meter.max == max
    ensures var all := Grown(s, rounds);
            var p := ReadRounds(k, source, s, i, more, rounds);
            && Harvest(k, source, max, LinesFrom(all, i, false))
                == p.events + Harvest(k, source, max, LinesFrom(all, p.offset, false))
            && StopAt(all, p.offset, false) == StopAt(all, i, false)
    decreases |rounds|
  {
    if rounds == [] {
      ConcatEmpty(Harvest(k, source, max, LinesFrom(s, i, false)));
    } else {
      var s' := s + rounds[0].appended;
      var r := Scan(k, source, s', i, false, rounds[0].meter);
      var p := ReadRounds(k, source, s', r.offset, r.more, rounds[1..]);
      RoundsLoseNothing(k, source, max, s', r.offset, r.more, rounds[1..]);
      var tail := GrownExtends(s', rounds[1..]);
      ReadThenGrow(k, source, s', i, rounds[0].meter, tail);
      hide Scan, LinesFrom, StopAt, Harvest;
      ConcatAssoc(r.events, p.events, Harvest(k, source, max, LinesFrom(s' + tail, p.offset, false)));
    }
  }

  /** A meter that no line of the file can exhaust. */
  predicate Ample(k: Codec, m: Meter, evs: seq<NCEvent>)
  {
    TotalCost(k, evs) <= m.remaining && |evs| <= m.events && TotalCost(k, evs) <= m.share && |evs| <= m.quota
  }

  lemma {:induction false} AmpleReadsAll(k: Codec, source: string, s: Bytes, i: nat, final: bool, m: Meter)
    requires i <= |s| && Ample(k, m, Harvest(k, source, m.max, LinesFrom(s, i, final)))
    ensures !Scan(k, source, s, i, final, m).more
    decreases |s| - i
  {
    if HasLine(s, i, final) {
      var line := s[i..LineEnd(s, i)];
      var rest := LinesFrom(s, LineEnd(s, i), final);
      assert ([line] + rest)[1..] == rest;
      var later := Harvest(k, source, m.max, rest);
      if Deliverable(k, source, m.max, line).Some? {
        var ev := Deliverable(k, source, m.max, line).value;
        assert ([ev] + later)[1..] == later;
      } else {
        ConcatEmpty(later);
      }
      var step := LineStep(k, source, line, m);
      if step.Passed? {
        AmpleReadsAll(k, source, s, LineEnd(s, i), final, step.meter);
      }
    }
  }

  /** Round by round with any budgets, or once without limits: the same events, the same
      place, as soon as the last round was not cut short. */
  lemma IncrementalIsOneShot(k: Codec, source: string, s: Bytes, i: nat, rounds: seq<Round>, unlimited: Meter)
    requires i <= |s| && rounds != [] && forall r :: r in rounds ==> r.meter.max == unlimited.max
    requires Ample(k, unlimited, Harvest(k, source, unlimited.max, LinesFrom(Grown(s, rounds), i, false)))
    requires !ReadRounds(k, source, s, i, false, rounds).more
    ensures var once := Scan(k, source, Grown(s, rounds), i, false, unlimited);
            var p := ReadRounds(k, source, s, i, false, rounds);
            p.events == once.events && p.offset == once.offset
  {
    var all := Grown(s, rounds);
    var tail := GrownExtends(s, rounds);
    RoundsLoseNothing(k, source, unlimited.max, s, i, false, rounds);
    LastReadStops(k, source, s, i, false, rounds);
    AmpleReadsAll(k, source, all, i, false, unlimited);
    ScanConsumes(k, source, all, i, false, unlimited);
    var p := ReadRounds(k, source, s, i, false, rounds);
    var once := Scan(k, source, all, i, false, unlimited);
    StopIsFixed(all, i);
    assert LinesFrom(all, p.offset, false) == [];
    hide Scan, StopAt, ReadRounds, Grown;
    ConcatEmpty(p.events);
    ConcatEmpty(LinesBetween(all, i, once.offset));
  }

  lemma {:induction false} StopIsFixed(s: Bytes, i: nat)
    requires i <= |s|
    ensures LinesFrom(s, StopAt(s, i, false), false) == []
  {
  }

  /** If the last read was not cut short, it went to the end of the last complete line. */
  lemma {:induction false} LastReadStops(k: Codec, source: string, s: Bytes, i: nat, more: bool, rounds: seq<Round>)
    requires i <= |s| && rounds != []
    ensures var p := ReadRounds(k, source, s, i, more, rounds);
            !p.more ==> !HasLine(Grown(s, rounds), p.offset, false)
    decreases |rounds|
  {
    var s' := s + rounds[0].appended;
    var r := Scan(k, source, s', i, false, rounds[0].meter);
    if |rounds| == 1 {
      ScanConsumes(k, source, s', i, false, rounds[0].meter);
    } else {
      LastReadStops(k, source, s', r.offset, r.more, rounds[1..]);
    }
  }

  /** At the start of a line: no line is ever split between two reads. */
  predicate AtBoundary(s: Bytes, i: nat) { i == 0 || (i <= |s| && s[i - 1] == NEWLINE) }

  lemma {:induction false} ScanKeepsBoundary(k: Codec, source: string, s: Bytes, i: nat, m: Meter)
    requires i <= |s| && AtBoundary(s, i)
    ensures AtBoundary(s, Scan(k, source, s, i, false, m).offset)
    decreases |s| - i
  {
    if HasLine(s, i, false) {
      var step := LineStep(k, source, s[i..LineEnd(s, i)], m);
      if step.Passed? {
        ScanKeepsBoundary(k, source, s, LineEnd(s, i), step.meter);
      }
    }
  }

  lemma {:induction false} RoundsKeepBoundary(k: Codec, source: string, s: Bytes, i: nat, more: bool,
                                              rounds: seq<Round>)
    requires i <= |s| && AtBoundary(s, i)
    ensures AtBoundary(Grown(s, rounds), ReadRounds(k, source, s, i, more, rounds).offset)
    decreases |rounds|
  {
    if rounds != [] {
      var s' := s + rounds[0].appended;
      assert i > 0 ==> s'[i - 1] == s[i - 1];
      ScanKeepsBoundary(k, source, s', i, rounds[0].meter);
      var r := Scan(k, source, s', i, false, rounds[0].meter);
      RoundsKeepBoundary(k, source, s', r.offset, r.more, rounds[1..]);
    }
  }
}
