/** Redacting scan metadata before it is printed. Texts are sequences of UTF-16 code units. */
module Redaction {
  import opened Basics

  type Unit = x: int | 0 <= x < 0x1_0000
  type Text = seq<Unit>

  const SLASH: Unit := 47
  const BACKSLASH: Unit := 92
  const DOT: Unit := 46
  const REDACTED: Text := [91, 114, 101, 100, 97, 99, 116, 101, 100, 93]        // "[redacted]"
  const UNAVAILABLE: Text := [40, 117, 110, 97, 118, 97, 105, 108, 97, 98, 108, 101, 41]  // "(unavailable)"
  const DOT_GIT: Text := [46, 103, 105, 116]                                     // ".git"

  /** The codes of an ASCII string. */
  predicate Spells(text: Text, s: string) { |text| == |s| && forall i :: 0 <= i < |s| ==> text[i] == s[i] as int }

  /** A JavaScript value: only strings matter here. */
  datatype Value = Str(text: Text) | NotAString

  // ----- folding -----

  predicate IsSlash(c: Unit) { c == SLASH || c == BACKSLASH }

  function Lower(c: Unit): Unit { if 65 <= c <= 90 then c + 32 else c }

  /** Does character `i` continue a run of slashes? */
  predicate InsideRun(text: Text, i: nat)
  {
    0 < i < |text| && IsSlash(text[i - 1]) && IsSlash(text[i])
  }

  /** Each run of slashes and backslashes becomes one slash. */
  function Squeeze(text: Text): Text
  {
    if text == [] then []
    else
      var n := |text| - 1;
      Squeeze(text[..n]) + (if InsideRun(text, n) then [] else if IsSlash(text[n]) then [SLASH] else [text[n]])
  }

  function LowerAll(text: Text): (r: Text)
    ensures |r| == |text|
  {
    seq(|text|, i requires 0 <= i < |text| => Lower(text[i]))
  }

  function Fold(text: Text): Text { LowerAll(Squeeze(text)) }

  /** What the last character adds to the folded text. */
  function FoldLast(text: Text): Text
    requires text != []
  {
    var n := |text| - 1;
    if InsideRun(text, n) then [] else if IsSlash(text[n]) then [SLASH] else [Lower(text[n])]
  }

  lemma FoldSnoc(text: Text)
    requires text != []
    ensures Fold(text) == Fold(text[..|text| - 1]) + FoldLast(text)
  {
  }

  /** Positions that do not cut a run of slashes in two. */
  predicate Aligned(text: Text, i: nat) { i <= |text| && !InsideRun(text, i) }

  /** Folding works piecewise, if no run is cut. */
  lemma {:induction false} FoldSplit(text: Text, i: nat)
    requires Aligned(text, i)
    ensures Fold(text) == Fold(text[..i]) + Fold(text[i..])
  {
    if i == |text| {
      assert text[..i] == text && text[i..] == [];
    } else {
      var n := |text| - 1;
      var most := text[..n];
      FoldSplit(most, i);
      FoldSnoc(text);
      FoldSnoc(text[i..]);
      assert most[..i] == text[..i] && most[i..] == text[i..][..n - i];
      assert FoldLast(text[i..]) == FoldLast(text);
      hide Fold;
      ConcatAssoc(Fold(text[..i]), Fold(most[i..]), FoldLast(text));
    }
  }

  lemma {:induction false} FoldNonEmpty(text: Text)
    requires text != []
    ensures Fold(text) != []
  {
    FoldSnoc(text);
    if |text| > 1 {
      FoldNonEmpty(text[..|text| - 1]);
    }
  }

  /** How much of the folded text the first `i` characters make up. */
  function FoldedLength(text: Text, i: nat): nat
    requires i <= |text|
  {
    |Fold(text[..i])|
  }

  /** Between two aligned positions lies exactly the folding of what is between them. */
  lemma FoldBetween(text: Text, i: nat, j: nat)
    requires i < j && Aligned(text, i) && Aligned(text, j)
    ensures FoldedLength(text, i) < FoldedLength(text, j) <= |Fold(text)|
    ensures Fold(text)[FoldedLength(text, i)..FoldedLength(text, j)] == Fold(text[i..j])
  {
    FoldSplit(text, j);
    assert Aligned(text[..j], i);
    FoldSplit(text[..j], i);
    assert text[..j][..i] == text[..i] && text[..j][i..] == text[i..j];
    FoldNonEmpty(text[i..j]);
  }

  predicate EndsInSlash(text: Text) { text != [] && IsSlash(text[|text| - 1]) }

  lemma {:induction false} FoldKeepsEnd(text: Text)
    ensures EndsInSlash(Fold(text)) <==> EndsInSlash(text)
  {
    if text != [] {
      var n := |text| - 1;
      FoldKeepsEnd(text[..n]);
      FoldSnoc(text);
      hide Fold;
      if InsideRun(text, n) {
        assert EndsInSlash(text[..n]);
        ConcatEmpty(Fold(text[..n]));
      }
    }
  }

  /** What the last character adds is added again when the folded text is folded. */
  lemma FoldLastStays(text: Text)
    requires text != [] && FoldLast(text) != []
    ensures var folded := Fold(text[..|text| - 1]) + FoldLast(text);
            FoldLast(folded) == FoldLast(text) && |FoldLast(text)| == 1
  {
    FoldKeepsEnd(text[..|text| - 1]);
    hide Fold;
    var before := Fold(text[..|text| - 1]);
    var folded := before + FoldLast(text);
    assert before != [] ==> folded[|before| - 1] == before[|before| - 1];
    assert folded[|before|] == FoldLast(text)[0];
  }

  /** Folding a folded text changes nothing. */
  lemma {:induction false} FoldTwice(text: Text)
    ensures Fold(Fold(text)) == Fold(text)
  {
    if text != [] {
      var most := text[..|text| - 1];
      FoldTwice(most);
      FoldSnoc(text);
      hide Fold;
      if FoldLast(text) == [] {
        ConcatEmpty(Fold(most));
      } else {
        FoldLastStays(text);
        hide FoldLast;
        var folded := Fold(most) + FoldLast(text);
        assert folded[..|folded| - 1] == Fold(most);
        FoldSnoc(folded);
      }
    }
  }

  // ----- the map from folded to original positions -----

  /** Folded character `k` stands for the original characters from `start` to `end`. */
  predicate IsCell(text: Text, k: nat, start: nat, end: nat)
  {
    && start < end <= |text| && Aligned(text, start) && Aligned(text, end)
    && FoldedLength(text, start) == k && FoldedLength(text, end) == k + 1
  }

  predicate MapsBack(text: Text, upto: nat, starts: seq<nat>, ends: seq<nat>)
    requires upto <= |text|
  {
    && |starts| == |ends| == FoldedLength(text, upto)
    && forall k :: 0 <= k < |starts| ==> IsCell(text, k, starts[k], ends[k])
  }

  /** The normaliser of redactMetadata: folds in one pass and records where each folded
      character comes from. */
  method Normalize(text: Text) returns (normalized: Text, starts: seq<nat>, ends: seq<nat>)
    ensures normalized == Fold(text)
    ensures MapsBack(text, |text|, starts, ends)
  {
    normalized, starts, ends := [], [], [];
    var i := 0;
    while i < |text|
      invariant Aligned(text, i)
      invariant normalized == Fold(text[..i])
      invariant MapsBack(text, i, starts, ends)
    {
      var start := i;
      if IsSlash(text[i]) {
        while i < |text| && IsSlash(text[i])
          invariant start <= i <= |text|
          invariant i > start ==> IsSlash(text[i - 1])
          invariant Fold(text[..i]) == normalized + (if i > start then [SLASH] else [])
        {
          StepFold(text, i);
          i := i + 1;
        }
        normalized := normalized + [SLASH];
      } else {
        StepFold(text, i);
        normalized := normalized + [Lower(text[i])];
        i := i + 1;
      }
      assert IsCell(text, |starts|, start, i);
      starts, ends := starts + [start], ends + [i];
    }
    assert text[..|text|] == text;
  }

  lemma StepFold(text: Text, i: nat)
    requires i < |text|
    ensures Fold(text[..i + 1]) == Fold(text[..i])
            + (if InsideRun(text, i) then [] else if IsSlash(text[i]) then [SLASH] else [Lower(text[i])])
  {
    FoldSnoc(text[..i + 1]);
    assert text[..i + 1][..i] == text[..i];
  }

  // ----- what is to be redacted -----

  datatype Span = Span(start: nat, end: nat)

  predicate In(s: Span, p: nat) { s.start <= p < s.end }

  /** A stretch of whole slash runs that folds to one of the needles. */
  predicate IsWindow(text: Text, needles: set<Text>, s: Span)
  {
    s.start < s.end && Aligned(text, s.start) && Aligned(text, s.end) && Fold(text[s.start..s.end]) in needles
  }

  predicate Occurs(hay: Text, needle: Text, at: nat)
  {
    at + |needle| <= |hay| && hay[at..at + |needle|] == needle
  }

  lemma SameCell(text: Text, i: nat, j: nat)
    requires Aligned(text, i) && Aligned(text, j) && FoldedLength(text, i) == FoldedLength(text, j)
    ensures i == j
  {
    if i < j {
      FoldBetween(text, i, j);
    } else if j < i {
      FoldBetween(text, j, i);
    }
  }

  /** The original stretch of an occurrence in the folded text. */
  function SpanAt(starts: seq<nat>, ends: seq<nat>, at: nat, length: nat): Span
    requires at + length <= |starts| == |ends| && length > 0
  {
    Span(starts[at], ends[at + length - 1])
  }

  lemma FoldedLengthGrows(text: Text, i: nat, j: nat)
    requires i <= j <= |text|
    ensures FoldedLength(text, i) <= FoldedLength(text, j)
  {
    if i < j {
      StepFold(text, j - 1);
      FoldedLengthGrows(text, i, j - 1);
    }
  }

  /** Occurrences in the folded text are exactly the windows of the original text. */
  lemma OccurrenceIsWindow(text: Text, starts: seq<nat>, ends: seq<nat>, needle: Text, at: nat)
    requires MapsBack(text, |text|, starts, ends) && needle != []
    requires Occurs(Fold(text), needle, at)
    ensures text[..|text|] == text
    ensures IsWindow(text, {needle}, SpanAt(starts, ends, at, |needle|))
    ensures FoldedLength(text, starts[at]) == at
  {
    hide Fold, FoldedLength, Aligned, MapsBack;
    CellAt(text, starts, ends, at);
    CellAt(text, starts, ends, at + |needle| - 1);
    var i, j := starts[at], ends[at + |needle| - 1];
    if j <= i {
      FoldedLengthGrows(text, j, i);
      assert false;
    }
    FoldBetween(text, i, j);
  }

  lemma CellAt(text: Text, starts: seq<nat>, ends: seq<nat>, k: nat)
    requires MapsBack(text, |text|, starts, ends)
    ensures text[..|text|] == text && |starts| == |ends| == |Fold(text)|
    ensures k < |starts| ==> IsCell(text, k, starts[k], ends[k])
  {
    assert text[..|text|] == text;
  }

  lemma WindowIsOccurrence(text: Text, starts: seq<nat>, ends: seq<nat>, needle: Text, s: Span)
    requires MapsBack(text, |text|, starts, ends) && needle != []
    requires IsWindow(text, {needle}, s)
    ensures text[..|text|] == text
    ensures Occurs(Fold(text), needle, FoldedLength(text, s.start))
    ensures s == SpanAt(starts, ends, FoldedLength(text, s.start), |needle|)
  {
    assert s.start < s.end <= |text|;
    hide Fold, FoldedLength, Aligned, MapsBack;
    var at := FoldedLength(text, s.start);
    var last := at + |needle| - 1;
    FoldBetween(text, s.start, s.end);
    CellAt(text, starts, ends, at);
    CellAt(text, starts, ends, last);
    SameCell(text, s.start, starts[at]);
    SameCell(text, s.end, ends[last]);
  }

  /** String.prototype.indexOf. */
  function IndexOf(hay: Text, needle: Text, from: nat): (r: int)
    ensures r == -1 || r >= from
    ensures r == -1 ==> forall at: nat :: from <= at ==> !Occurs(hay, needle, at)
    ensures r != -1 ==> Occurs(hay, needle, r) && forall at: nat :: from <= at < r ==> !Occurs(hay, needle, at)
    decreases |hay| - from
  {
    if from + |needle| > |hay| then -1
    else if Occurs(hay, needle, from) then from
    else IndexOf(hay, needle, from + 1)
  }

  /** Adds the stretch of every occurrence of a needle, overlapping ones included. */
  method AddOccurrences(ghost text: Text, normalized: Text, starts: seq<nat>, ends: seq<nat>, needle: Text,
                        spans: seq<Span>)
    returns (spans': seq<Span>)
    requires normalized == Fold(text) && MapsBack(text, |text|, starts, ends) && needle != []
    ensures forall s :: s in spans' <==> s in spans || IsWindow(text, {needle}, s)
  {
    hide IsWindow, IsCell, Fold;
    assert text[..|text|] == text;
    spans' := spans;
    var at := IndexOf(normalized, needle, 0);
    while at != -1
      invariant at == -1 || (at >= 0 && Occurs(normalized, needle, at))
      invariant forall s :: s in spans' ==> s in spans || IsWindow(text, {needle}, s)
      invariant forall s :: s in spans ==> s in spans'
      invariant forall k: nat :: Occurs(normalized, needle, k) && (at == -1 || k < at) ==>
                                   SpanAt(starts, ends, k, |needle|) in spans'
      decreases if at == -1 then 0 else |normalized| - at
    {
      OccurrenceIsWindow(text, starts, ends, needle, at);
      spans' := spans' + [SpanAt(starts, ends, at, |needle|)];
      at := IndexOf(normalized, needle, at + 1);
    }
    forall s | IsWindow(text, {needle}, s)
      ensures s in spans'
    {
      WindowIsOccurrence(text, starts, ends, needle, s);
    }
  }

  // ----- the forms of a value -----

  function DropSlashes(text: Text): Text
  {
    if text != [] && text[0] == SLASH then DropSlashes(text[1..]) else text
  }

  function DropDots(text: Text): Text
  {
    if text != [] && text[|text| - 1] == DOT then DropDots(text[..|text| - 1]) else text
  }

  /** Made of dots, hyphens, underscores and ".git" only. */
  predicate IsTail(text: Text)
  {
    || text == []
    || (text[0] in [46, 45, 95] && IsTail(text[1..]))
    || (|text| >= 4 && text[..4] == DOT_GIT && IsTail(text[4..]))
  }

  /** The text without its longest such tail. */
  function DropTail(text: Text): Text
  {
    if IsTail(text) then [] else [text[0]] + DropTail(text[1..])
  }

  /** The forms in which a value is looked for. */
  function Forms(value: Text): set<Text>
  {
    var full := Fold(value);
    var short := DropDots(DropSlashes(full));
    var bare := DropTail(short);
    {full}
    + (if SLASH in full && SLASH in short then {short} else {})
    + (if SLASH in full && SLASH in bare && bare[|bare| - 1] != SLASH then {bare} else {})
  }

  predicate LookedFor(value: Value) { value.Str? && value.text != [] && value.text != REDACTED }

  function Needles(values: seq<Value>): set<Text>
  {
    if values == [] then {}
    else
      var last := values[|values| - 1];
      Needles(values[..|values| - 1]) + (if LookedFor(last) then Forms(last.text) else {})
  }

  /** DropTail cuts at the leftmost place after which there is only tail. */
  lemma {:induction false} DropTailIsLongest(text: Text)
    ensures |DropTail(text)| <= |text| && DropTail(text) == text[..|DropTail(text)|]
    ensures IsTail(text[|DropTail(text)|..])
    ensures forall i :: 0 <= i < |DropTail(text)| ==> !IsTail(text[i..])
  {
    if !IsTail(text) {
      DropTailIsLongest(text[1..]);
      forall i | 0 <= i < |DropTail(text)|
        ensures !IsTail(text[i..])
      {
        assert i > 0 ==> text[i..] == text[1..][i - 1..];
      }
    }
  }

  predicate Only(text: Text, c: Unit) { forall i :: 0 <= i < |text| ==> text[i] == c }

  lemma {:induction false} SlashesDrop(lead: Text, core: Text)
    requires Only(lead, SLASH) && (core == [] || core[0] != SLASH)
    ensures DropSlashes(lead + core) == core
  {
    if lead == [] {
      assert lead + core == core;
    } else {
      SlashesDrop(lead[1..], core);
      assert (lead + core)[1..] == lead[1..] + core;
    }
  }

  lemma {:induction false} DotsDrop(core: Text, dots: Text)
    requires Only(dots, DOT) && (core == [] || core[|core| - 1] != DOT)
    ensures DropDots(core + dots) == core
  {
    if dots == [] {
      assert core + dots == core;
    } else {
      var most := dots[..|dots| - 1];
      DotsDrop(core, most);
      assert (core + dots)[..|core| + |most|] == core + most;
    }
  }

  /** A tail starts with a separator, so cutting it off another tail leaves a tail. */
  lemma {:induction false} TailsPart(a: Text, b: Text)
    requires IsTail(a + b) && IsTail(b)
    ensures IsTail(a)
  {
    if a != [] && b != [] {
      assert b[0] in [46, 45, 95];
      if a[0] in [46, 45, 95] && IsTail((a + b)[1..]) {
        assert (a + b)[1..] == a[1..] + b;
        TailsPart(a[1..], b);
      } else {
        var all := a + b;
        assert all[..4] == DOT_GIT && all[0] == 46 && all[1] == 103 && all[2] == 105 && all[3] == 116;
        assert all[|a|] == b[0];
        assert all[4..] == a[4..] + b && a[..4] == all[..4];
        TailsPart(a[4..], b);
      }
    } else if b == [] {
      assert a + b == a;
    }
  }

  /** A value is also found without its leading slashes and trailing dots, and without any tail
      of dots, hyphens, underscores and ".git" behind them, as long as a path is left of it. */
  lemma EndsAreOptional(value: Text, lead: Text, core: Text, tail: Text, dots: Text)
    requires Fold(value) == lead + (core + tail + dots) && Only(lead, SLASH) && Only(dots, DOT)
    requires IsTail(tail) && (tail == [] || tail[|tail| - 1] != DOT)
    requires SLASH in core && core[0] != SLASH
    requires forall i :: 0 <= i < |core| ==> !IsTail(core[i..])
    ensures core + tail in Forms(value)
    ensures core[|core| - 1] != SLASH ==> core in Forms(value)
  {
    var short := core + tail;
    LastIsNoDot(core);
    TailDrops(core, tail);
    hide Fold, IsTail, DropTail, DropSlashes, DropDots, Only;
    assert short[|short| - 1] == if tail == [] then core[|core| - 1] else tail[|tail| - 1];
    assert (short + dots)[0] == core[0] && short[0] == core[0];
    SlashesDrop(lead, short + dots);
    DotsDrop(short, dots);
    var i :| 0 <= i < |core| && core[i] == SLASH;
    assert short[i] == SLASH && Fold(value)[|lead| + i] == SLASH;
  }

  lemma LastIsNoDot(core: Text)
    requires core != [] && forall i :: 0 <= i < |core| ==> !IsTail(core[i..])
    ensures core[|core| - 1] != DOT
  {
    assert core[|core| - 1..] == [core[|core| - 1]];
    assert IsTail([DOT]);
  }

  lemma {:induction false} TailDrops(core: Text, tail: Text)
    requires IsTail(tail) && forall i :: 0 <= i < |core| ==> !IsTail(core[i..])
    ensures DropTail(core + tail) == core
  {
    if core == [] {
      assert core + tail == tail;
    } else {
      assert core[0..] == core;
      if IsTail(core + tail) {
        TailsPart(core, tail);
      }
      forall i | 0 <= i < |core[1..]|
        ensures !IsTail(core[1..][i..])
      {
        assert core[1..][i..] == core[i + 1..];
      }
      TailDrops(core[1..], tail);
      assert (core + tail)[1..] == core[1..] + tail;
    }
  }

  lemma NeedlesAreNonEmpty(value: Value)
    requires LookedFor(value)
    ensures [] !in Forms(value.text)
  {
    FoldNonEmpty(value.text);
  }

  /** The set of forms, built as redactMetadata builds it. */
  method FormList(value: Text) returns (forms: seq<Text>)
    ensures forall f :: f in forms <==> f in Forms(value)
    ensures forall i, j :: 0 <= i < j < |forms| ==> forms[i] != forms[j]
  {
    var full := Fold(value);
    forms := [full];
    if SLASH in full {
      var short := DropDots(DropSlashes(full));
      if SLASH in short && short !in forms {
        forms := forms + [short];
      }
      var bare := DropTail(short);
      if SLASH in bare && bare[|bare| - 1] != SLASH && bare !in forms {
        forms := forms + [bare];
      }
    }
  }

  lemma WindowsOfBoth(text: Text, a: set<Text>, b: set<Text>)
    ensures forall s :: IsWindow(text, a + b, s) <==> IsWindow(text, a, s) || IsWindow(text, b, s)
  {
  }

  function AsSet(forms: seq<Text>): set<Text> { set f | f in forms }

  /** Adds the stretches of every form of one value. */
  method AddForms(ghost text: Text, normalized: Text, starts: seq<nat>, ends: seq<nat>, value: Value, spans: seq<Span>)
    returns (spans': seq<Span>)
    requires normalized == Fold(text) && MapsBack(text, |text|, starts, ends) && LookedFor(value)
    ensures forall s :: s in spans' <==> s in spans || IsWindow(text, Forms(value.text), s)
  {
    NeedlesAreNonEmpty(value);
    var forms := FormList(value.text);
    spans' := spans;
    var j := 0;
    while j < |forms|
      invariant 0 <= j <= |forms|
      invariant forall s :: s in spans' <==> s in spans || IsWindow(text, AsSet(forms[..j]), s)
    {
      hide IsWindow, Fold, MapsBack;
      WindowsOfBoth(text, AsSet(forms[..j]), {forms[j]});
      assert AsSet(forms[..j + 1]) == AsSet(forms[..j]) + {forms[j]};
      spans' := AddOccurrences(text, normalized, starts, ends, forms[j], spans');
      j := j + 1;
    }
    assert AsSet(forms[..j]) == Forms(value.text);
  }

  /** All stretches of the text that fold to a needle. */
  method FindSpans(text: Text, values: seq<Value>) returns (spans: seq<Span>)
    ensures forall s :: s in spans <==> IsWindow(text, Needles(values), s)
  {
    var normalized, starts, ends := Normalize(text);
    spans := [];
    var i := 0;
    while i < |values|
      invariant 0 <= i <= |values|
      invariant forall s :: s in spans <==> IsWindow(text, Needles(values[..i]), s)
    {
      hide IsWindow, Fold, MapsBack, Forms;
      assert values[..i + 1][..i] == values[..i];
      if LookedFor(values[i]) {
        WindowsOfBoth(text, Needles(values[..i]), Forms(values[i].text));
        spans := AddForms(text, normalized, starts, ends, values[i], spans);
      }
      i := i + 1;
    }
    assert values[..|values|] == values;
  }

  // ----- merging -----

  predicate Covers(spans: seq<Span>, p: nat) { exists s :: s in spans && In(s, p) }

  predicate ByStart(spans: seq<Span>) { forall i, j :: 0 <= i < j < |spans| ==> spans[i].start <= spans[j].start }

  function Insert(spans: seq<Span>, x: Span): (r: seq<Span>)
    requires ByStart(spans)
    ensures ByStart(r) && |r| == |spans| + 1
    ensures forall s :: s in r <==> s in spans || s == x
  {
    if spans == [] then [x]
    else
      var last := spans[|spans| - 1];
      if last.start <= x.start then spans + [x]
      else
        var before := Insert(spans[..|spans| - 1], x);
        assert forall i :: 0 <= i < |before| ==> before[i] in before;
        before + [last]
  }

  ghost predicate SameMembers(a: seq<Span>, b: seq<Span>) { forall s :: s in a <==> s in b }

  /** Array.prototype.sort by the first component; it keeps equal elements in order. */
  function SortByStart(spans: seq<Span>): (r: seq<Span>)
    ensures ByStart(r) && |r| == |spans| && SameMembers(r, spans)
  {
    if spans == [] then [] else Insert(SortByStart(spans[..|spans| - 1]), spans[|spans| - 1])
  }

  predicate Nonempty(spans: seq<Span>) { forall s :: s in spans ==> s.start < s.end }

  /** Sorted, and at least one character apart. */
  predicate Separated(spans: seq<Span>)
  {
    Nonempty(spans) && forall i, j :: 0 <= i < j < |spans| ==> spans[i].end < spans[j].start
  }

  lemma CoversSnoc(spans: seq<Span>, s: Span)
    ensures forall p: nat :: Covers(spans + [s], p) <==> Covers(spans, p) || In(s, p)
  {
    forall p: nat
      ensures Covers(spans + [s], p) <==> Covers(spans, p) || In(s, p)
    {
      if Covers(spans, p) {
        var t :| t in spans && In(t, p);
        assert t in spans + [s];
      }
      if In(s, p) {
        assert s in spans + [s];
      }
    }
  }

  /** The last span, extended over one that starts inside it or right behind it. */
  function Extended(last: Span, span: Span): Span
  {
    last.(end := if last.end >= span.end then last.end else span.end)
  }

  lemma ExtendedCoversBoth(spans: seq<Span>, last: Span, span: Span)
    requires last.start <= span.start <= last.end
    ensures forall p: nat :: Covers(spans + [Extended(last, span)], p) <==> Covers(spans + [last], p) || In(span, p)
  {
    CoversSnoc(spans, last);
    CoversSnoc(spans, Extended(last, span));
  }

  lemma ExtendedStaysSeparated(spans: seq<Span>, last: Span, span: Span)
    requires Separated(spans + [last])
    ensures Separated(spans + [Extended(last, span)])
  {
    var before, after := spans + [last], spans + [Extended(last, span)];
    forall i | 0 <= i < |after|
      ensures after[i].start < after[i].end && after[i].start == before[i].start
    {
      assert before[i] in before;
    }
    forall i, j | 0 <= i < j < |after|
      ensures after[i].end < after[j].start
    {
      assert before[i].end < before[j].start;
    }
  }

  lemma SeparatedSnoc(spans: seq<Span>, s: Span)
    requires Separated(spans) && s.start < s.end && (spans != [] ==> spans[|spans| - 1].end < s.start)
    ensures Separated(spans + [s])
  {
    var after := spans + [s];
    forall i, j | 0 <= i < j < |after|
      ensures after[i].end < after[j].start
    {
      if j == |spans| && i < j - 1 {
        assert spans[i].end < spans[j - 1].start;
        assert spans[j - 1] in spans;
      }
    }
  }

  /** The spans merged so far cover what the spans seen so far cover. */
  ghost predicate Merged(merged: seq<Span>, seen: seq<Span>)
  {
    Separated(merged) && forall p: nat :: Covers(merged, p) <==> Covers(seen, p)
  }

  lemma MergeTouching(merged: seq<Span>, seen: seq<Span>, span: Span)
    requires Merged(merged, seen) && merged != []
    requires merged[|merged| - 1].start <= span.start <= merged[|merged| - 1].end
    ensures Merged(merged[|merged| - 1 := Extended(merged[|merged| - 1], span)], seen + [span])
  {
    hide Covers, Separated, Extended;
    var k := |merged| - 1;
    var last := merged[k];
    assert merged == merged[..k] + [last];
    assert merged[k := Extended(last, span)] == merged[..k] + [Extended(last, span)];
    CoversSnoc(seen, span);
    ExtendedCoversBoth(merged[..k], last, span);
    ExtendedStaysSeparated(merged[..k], last, span);
  }

  lemma MergeApart(merged: seq<Span>, seen: seq<Span>, span: Span)
    requires Merged(merged, seen) && span.start < span.end
    requires merged == [] || merged[|merged| - 1].end < span.start
    ensures Merged(merged + [span], seen + [span])
  {
    hide Covers, Separated;
    CoversSnoc(seen, span);
    CoversSnoc(merged, span);
    SeparatedSnoc(merged, span);
  }

  /** One turn of the merging loop. */
  function Absorb(merged: seq<Span>, span: Span): seq<Span>
  {
    var k := |merged| - 1;
    if merged != [] && span.start <= merged[k].end then merged[k := Extended(merged[k], span)] else merged + [span]
  }

  ghost predicate MergedInOrder(merged: seq<Span>, seen: seq<Span>)
  {
    Merged(merged, seen) && (merged != [] ==> seen != [] && merged[|merged| - 1].start <= seen[|seen| - 1].start)
  }

  lemma AbsorbKeepsMerged(merged: seq<Span>, seen: seq<Span>, span: Span)
    requires MergedInOrder(merged, seen) && span.start < span.end
    requires seen == [] || seen[|seen| - 1].start <= span.start
    ensures MergedInOrder(Absorb(merged, span), seen + [span])
  {
    hide Merged;
    if merged != [] && span.start <= merged[|merged| - 1].end {
      MergeTouching(merged, seen, span);
    } else {
      MergeApart(merged, seen, span);
    }
  }

  lemma MergedInAnyOrder(merged: seq<Span>, sorted: seq<Span>, spans: seq<Span>)
    requires MergedInOrder(merged, sorted) && SameMembers(sorted, spans)
    ensures Merged(merged, spans)
  {
    hide Separated;
    assert forall p: nat :: Covers(sorted, p) <==> Covers(spans, p);
  }

  lemma NothingMerged(sorted: seq<Span>)
    ensures MergedInOrder([], sorted[..0])
  {
  }

  lemma NextInOrder(spans: seq<Span>, sorted: seq<Span>, i: nat)
    requires Nonempty(spans) && SameMembers(sorted, spans) && ByStart(sorted) && i < |sorted|
    ensures sorted[i].start < sorted[i].end
    ensures i > 0 ==> sorted[i - 1].start <= sorted[i].start
  {
    assert sorted[i] in sorted;
  }

  /** Merging sorted spans loses no position and adds none. */
  method Merge(spans: seq<Span>) returns (merged: seq<Span>)
    requires Nonempty(spans)
    ensures Merged(merged, spans)
  {
    var sorted := SortByStart(spans);
    hide SortByStart, SameMembers, ByStart, Nonempty, MergedInOrder, Merged, Extended;
    NothingMerged(sorted);
    merged := [];
    var i := 0;
    while i < |sorted|
      invariant 0 <= i <= |sorted|
      invariant MergedInOrder(merged, sorted[..i])
    {
      var span := sorted[i];
      NextInOrder(spans, sorted, i);
      AbsorbKeepsMerged(merged, sorted[..i], span);
      assert sorted[..i + 1] == sorted[..i] + [span];
      if merged != [] && span.start <= merged[|merged| - 1].end {
        merged := merged[|merged| - 1 := Extended(merged[|merged| - 1], span)];
      } else {
        merged := merged + [span];
      }
      i := i + 1;
    }
    assert sorted[..|sorted|] == sorted;
    MergedInAnyOrder(merged, sorted, spans);
  }

  // ----- the redacted text -----

  /** Position `p` belongs to some stretch that folds to a needle. */
  predicate Hit(text: Text, needles: set<Text>, p: nat)
  {
    exists i: nat, j: nat :: i <= p < j <= |text| && IsWindow(text, needles, Span(i, j))
  }

  function Hits(text: Text, needles: set<Text>): seq<bool>
  {
    seq(|text|, p requires 0 <= p < |text| => Hit(text, needles, p))
  }

  /** Every maximal run of marked characters becomes one "[redacted]"; the others stay. */
  function Blank(text: Text, marks: seq<bool>): Text
    requires |marks| == |text|
  {
    if text == [] then []
    else
      var n := |text| - 1;
      Blank(text[..n], marks[..n])
      + (if !marks[n] then [text[n]] else if n > 0 && marks[n - 1] then [] else REDACTED)
  }

  function BlankUpTo(text: Text, marks: seq<bool>, n: nat): Text
    requires |marks| == |text| && n <= |text|
  {
    Blank(text[..n], marks[..n])
  }

  lemma BlankStep(text: Text, marks: seq<bool>, n: nat)
    requires |marks| == |text| && n < |text|
    ensures BlankUpTo(text, marks, n + 1) == BlankUpTo(text, marks, n)
            + (if !marks[n] then [text[n]] else if n > 0 && marks[n - 1] then [] else REDACTED)
  {
    assert text[..n + 1][..n] == text[..n] && marks[..n + 1][..n] == marks[..n];
  }

  lemma {:induction false} BlankKeeps(text: Text, marks: seq<bool>, i: nat, j: nat)
    requires |marks| == |text| && i <= j <= |text|
    requires forall p :: i <= p < j ==> !marks[p]
    ensures BlankUpTo(text, marks, j) == BlankUpTo(text, marks, i) + text[i..j]
  {
    if i == j {
      ConcatEmpty(BlankUpTo(text, marks, i));
    } else {
      BlankKeeps(text, marks, i, j - 1);
      BlankStep(text, marks, j - 1);
      assert text[i..j] == text[i..j - 1] + [text[j - 1]];
      hide BlankUpTo;
      ConcatAssoc(BlankUpTo(text, marks, i), text[i..j - 1], [text[j - 1]]);
    }
  }

  lemma {:induction false} BlankHides(text: Text, marks: seq<bool>, i: nat, j: nat)
    requires |marks| == |text| && i < j <= |text|
    requires forall p :: i <= p < j ==> marks[p]
    requires i == 0 || !marks[i - 1]
    ensures BlankUpTo(text, marks, j) == BlankUpTo(text, marks, i) + REDACTED
  {
    BlankStep(text, marks, j - 1);
    if i < j - 1 {
      BlankHides(text, marks, i, j - 1);
      hide BlankUpTo;
      ConcatEmpty(BlankUpTo(text, marks, j - 1));
    }
  }

  predicate Marks(text: Text, spans: seq<Span>, marks: seq<bool>)
  {
    |marks| == |text| && (forall s :: s in spans ==> s.end <= |text|)
    && forall p :: 0 <= p < |text| ==> (marks[p] <==> Covers(spans, p))
  }

  /** Before span `k`, and after span `k - 1`, nothing is covered. */
  lemma NothingBetween(spans: seq<Span>, k: nat, p: nat)
    requires Separated(spans) && k <= |spans|
    requires (k == 0 || spans[k - 1].end <= p) && (k == |spans| || p < spans[k].start)
    ensures !Covers(spans, p)
  {
    forall i | 0 <= i < |spans|
      ensures !In(spans[i], p)
    {
      if i < k - 1 {
        assert spans[i].end < spans[k - 1].start;
      }
      if k < i {
        assert spans[k].end < spans[i].start;
      }
    }
  }

  method Render(text: Text, merged: seq<Span>, ghost marks: seq<bool>) returns (r: Text)
    requires Separated(merged) && Marks(text, merged, marks)
    ensures r == Blank(text, marks)
  {
    r := [];
    var cursor, k := 0, 0;
    while k < |merged|
      invariant 0 <= k <= |merged| && cursor <= |text|
      invariant cursor == if k == 0 then 0 else merged[k - 1].end
      invariant r == BlankUpTo(text, marks, cursor)
    {
      var s := merged[k];
      assert s in merged;
      assert cursor <= s.start by {
        if k > 0 {
          assert merged[k - 1].end < merged[k].start;
        }
      }
      forall p | cursor <= p < s.start
        ensures !marks[p]
      {
        NothingBetween(merged, k, p);
      }
      BlankKeeps(text, marks, cursor, s.start);
      if s.start > 0 {
        NothingBetween(merged, k, s.start - 1);
      }
      BlankHides(text, marks, s.start, s.end);
      hide BlankUpTo;
      ConcatAssoc(BlankUpTo(text, marks, cursor), text[cursor..s.start], REDACTED);
      r := r + (text[cursor..s.start] + REDACTED);
      cursor := s.end;
      k := k + 1;
    }
    forall p | cursor <= p < |text|
      ensures !marks[p]
    {
      NothingBetween(merged, k, p);
    }
    BlankKeeps(text, marks, cursor, |text|);
    assert text[..|text|] == text && marks[..|text|] == marks;
    r := r + text[cursor..];
  }

  // ----- control characters -----

  /** Control and bidirectional formatting characters. */
  predicate IsControl(c: Unit)
  {
    c <= 0x1f || c == 0x7f || c == 0x61c || c == 0x200e || c == 0x200f || 0x202a <= c <= 0x202e || 0x2066 <= c <= 0x2069
  }

  /** Every other character. */
  predicate Printable(c: Unit)
  {
    || 0x20 <= c <= 0x7e || 0x80 <= c <= 0x61b || 0x61d <= c <= 0x200d || 0x2010 <= c <= 0x2029
    || 0x202f <= c <= 0x2065 || 0x206a <= c
  }

  function HexDigit(d: nat): Unit
    requires d < 16
  {
    if d < 10 then 48 + d else 87 + d
  }

  function Escaped(c: Unit): Text
  {
    if IsControl(c) then
      [BACKSLASH, 117, HexDigit(c / 4096), HexDigit(c / 256 % 16), HexDigit(c / 16 % 16), HexDigit(c % 16)]
    else [c]
  }

  function Escape(text: Text): Text
  {
    if text == [] then [] else Escaped(text[0]) + Escape(text[1..])
  }

  function FromHex(d: Unit): int { if d < 58 then d - 48 else d - 87 }

  predicate IsHex(d: Unit) { 48 <= d <= 57 || 97 <= d <= 102 }

  lemma HexRoundTrip(d: nat)
    requires d < 16
    ensures IsHex(HexDigit(d)) && FromHex(HexDigit(d)) == d
  {
  }

  lemma NibblesAddUp(c: nat)
    ensures c / 4096 * 4096 + c / 256 % 16 * 256 + c / 16 % 16 * 16 + c % 16 == c
  {
    assert c / 256 == c / 4096 * 16 + c / 256 % 16;
    assert c / 16 == c / 256 * 16 + c / 16 % 16;
  }

  /** What stands for a control character names its code, in four lower-case hexadecimal digits. */
  lemma EscapeNamesTheCode(c: Unit)
    requires !Printable(c)
    ensures var e := Escape([c]);
            && |e| == 6 && e[..2] == [BACKSLASH, 117]
            && (forall i :: 2 <= i < 6 ==> IsHex(e[i]))
            && FromHex(e[2]) * 4096 + FromHex(e[3]) * 256 + FromHex(e[4]) * 16 + FromHex(e[5]) == c
  {
    assert Escape([c]) == [BACKSLASH, 117, HexDigit(c / 4096), HexDigit(c / 256 % 16), HexDigit(c / 16 % 16),
                           HexDigit(c % 16)] by {
      assert Escape([]) == [];
    }
    hide Escape, Escaped, HexDigit, FromHex, IsHex, IsControl;
    HexRoundTrip(c / 4096);
    HexRoundTrip(c / 256 % 16);
    HexRoundTrip(c / 16 % 16);
    HexRoundTrip(c % 16);
    NibblesAddUp(c);
  }

  /** Nothing that could move the cursor or reorder the line is printed. */
  lemma {:induction false} EscapedIsPrintable(text: Text)
    ensures forall c :: c in Escape(text) ==> Printable(c)
  {
    if text != [] {
      EscapedIsPrintable(text[1..]);
    }
  }

  /** Each character is escaped by itself. */
  lemma {:induction false} EscapeJoins(a: Text, b: Text)
    ensures Escape(a + b) == Escape(a) + Escape(b)
  {
    hide Escaped;
    if a == [] {
      assert a + b == b;
    } else {
      EscapeJoins(a[1..], b);
      assert (a + b)[1..] == a[1..] + b;
      ConcatAssoc(Escaped(a[0]), Escape(a[1..]), Escape(b));
    }
  }

  /** What can be printed is printed as it is. */
  lemma {:induction false} PrintableStays(text: Text)
    requires forall c :: c in text ==> Printable(c)
    ensures Escape(text) == text
  {
    if text != [] {
      assert text[0] in text;
      PrintableStays(text[1..]);
    }
  }

  // ----- the whole -----

  /** The text with every stretch that folds to a form of a value replaced. */
  function Redacted(text: Text, values: seq<Value>): Text { Escape(Blank(text, Hits(text, Needles(values)))) }

  /** Exactly the positions in stretches that fold to a form of a value are replaced, each
      maximal run of them by one mark; everything else is kept, control characters escaped. */
  method RedactMetadata(text: Value, values: seq<Value>) returns (r: Text)
    ensures text.NotAString? ==> Spells(r, "(unavailable)")
    ensures text.Str? ==> r == Redacted(text.text, values)
    ensures forall c :: c in r ==> Printable(c)
  {
    if text.NotAString? {
      return UNAVAILABLE;
    }
    var t := text.text;
    var spans := FindSpans(t, values);
    var merged := Merge(spans);
    ghost var marks := Hits(t, Needles(values));
    SpansMark(t, Needles(values), spans, merged);
    r := Render(t, merged, marks);
    EscapedIsPrintable(r);
    r := Escape(r);
  }

  lemma SpansMark(text: Text, needles: set<Text>, spans: seq<Span>, merged: seq<Span>)
    requires forall s :: s in spans <==> IsWindow(text, needles, s)
    requires Merged(merged, spans)
    ensures Marks(text, merged, Hits(text, needles))
  {
    forall s | s in merged
      ensures s.end <= |text|
    {
      assert In(s, s.end - 1);
      assert Covers(merged, s.end - 1);
    }
    forall p: nat | p < |text|
      ensures Hit(text, needles, p) <==> Covers(spans, p)
    {
      if Covers(spans, p) {
        var s :| s in spans && In(s, p);
        assert s == Span(s.start, s.end);
      }
      if Hit(text, needles, p) {
        var i: nat, j: nat :| i <= p < j <= |text| && IsWindow(text, needles, Span(i, j));
        assert In(Span(i, j), p);
      }
    }
  }

  /** A run of slashes is redacted as a whole or not at all. */
  lemma RunsStayWhole(text: Text, needles: set<Text>, p: nat)
    requires InsideRun(text, p)
    ensures Hit(text, needles, p - 1) <==> Hit(text, needles, p)
  {
    if Hit(text, needles, p - 1) {
      var i: nat, j: nat :| i <= p - 1 < j <= |text| && IsWindow(text, needles, Span(i, j));
      assert j != p;
    }
    if Hit(text, needles, p) {
      var i: nat, j: nat :| i <= p < j <= |text| && IsWindow(text, needles, Span(i, j));
      assert i != p;
    }
  }

  lemma WholeTextIsHidden(text: Text, needles: set<Text>)
    requires text != [] && Fold(text) in needles
    ensures Blank(text, Hits(text, needles)) == REDACTED
  {
    var marks := Hits(text, needles);
    assert text[0..|text|] == text;
    assert IsWindow(text, needles, Span(0, |text|));
    BlankHides(text, marks, 0, |text|);
    assert text[..|text|] == text && marks[..|text|] == marks;
  }

  /** Without an occurrence the text stays as it is. */
  lemma NoOccurrenceNoChange(text: Text, needles: set<Text>)
    requires forall s :: !IsWindow(text, needles, s)
    ensures Blank(text, Hits(text, needles)) == text
  {
    BlankKeeps(text, Hits(text, needles), 0, |text|);
    assert text[..|text|] == text && Hits(text, needles)[..|text|] == Hits(text, needles);
  }
}
