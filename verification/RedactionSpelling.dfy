/** What redaction looks for, told character by character: which spellings of a value are found,
    which forms a value has, and what is printed. */
module RedactionSpelling {
  import opened Basics
  import opened Redaction

  // ----- spelling -----

  /** The same character up to the case of an ASCII letter. */
  predicate SameLetter(a: Unit, b: Unit)
  {
    || a == b
    || (65 <= a <= 90 && b == a + 32)
    || (65 <= b <= 90 && a == b + 32)
  }

  /** Slash or backslash. */
  predicate Separator(c: Unit) { c == 47 || c == 92 }

  predicate EndsInSeparator(x: Text) { x != [] && Separator(x[|x| - 1]) }

  /** The text without the separators at its end. */
  function WithoutEnd(x: Text): (r: Text)
    ensures !EndsInSeparator(r) && |r| <= |x|
    ensures EndsInSeparator(x) ==> |r| < |x|
    ensures forall i :: |r| <= i < |x| ==> Separator(x[i])
    ensures r == x[..|r|]
  {
    if EndsInSeparator(x) then WithoutEnd(x[..|x| - 1]) else x
  }

  /** The same letters up to case, and runs of separators, of any length, at the same places. */
  predicate SpelledAlike(x: Text, y: Text)
    decreases |x|
  {
    if x == [] || y == [] then x == [] && y == []
    else if EndsInSeparator(x) || EndsInSeparator(y) then
      EndsInSeparator(x) && EndsInSeparator(y) && SpelledAlike(WithoutEnd(x), WithoutEnd(y))
    else SameLetter(x[|x| - 1], y[|y| - 1]) && SpelledAlike(x[..|x| - 1], y[..|y| - 1])
  }

  /** The separators at the end fold to one slash. */
  lemma {:induction false} FoldEnd(x: Text)
    requires EndsInSeparator(x)
    ensures Fold(x) == Fold(WithoutEnd(x)) + [47]
  {
    var most := x[..|x| - 1];
    FoldSnoc(x);
    if EndsInSeparator(most) {
      FoldEnd(most);
      hide Fold;
      ConcatEmpty(Fold(most));
    }
  }

  /** Any other last character folds to its own small letter. */
  lemma FoldLetters(x: Text, y: Text)
    requires x != [] && y != [] && !EndsInSeparator(x) && !EndsInSeparator(y)
    ensures Fold(x) == Fold(y)
            <==> SameLetter(x[|x| - 1], y[|y| - 1]) && Fold(x[..|x| - 1]) == Fold(y[..|y| - 1])
  {
    FoldSnoc(x);
    FoldSnoc(y);
    hide Fold;
    SnocsEqual(Fold(x[..|x| - 1]), FoldLast(x)[0], Fold(y[..|y| - 1]), FoldLast(y)[0]);
  }

  lemma SnocsEqual(a: Text, c: Unit, b: Text, d: Unit)
    ensures a + [c] == b + [d] <==> a == b && c == d
  {
    if a + [c] == b + [d] {
      assert a == (a + [c])[..|a + [c]| - 1] && b == (b + [d])[..|b + [d]| - 1];
      assert c == (a + [c])[|a + [c]| - 1];
    }
  }

  /** Two texts fold alike exactly if they are spelled alike. */
  lemma {:induction false} FoldAlikeIff(x: Text, y: Text)
    ensures Fold(x) == Fold(y) <==> SpelledAlike(x, y)
    decreases |x|
  {
    if x == [] || y == [] {
      if x != [] {
        FoldNonEmpty(x);
      }
      if y != [] {
        FoldNonEmpty(y);
      }
    } else if EndsInSeparator(x) && EndsInSeparator(y) {
      FoldEnd(x);
      FoldEnd(y);
      FoldAlikeIff(WithoutEnd(x), WithoutEnd(y));
      hide Fold;
      SnocsEqual(Fold(WithoutEnd(x)), 47, Fold(WithoutEnd(y)), 47);
    } else if EndsInSeparator(x) || EndsInSeparator(y) {
      FoldKeepsEnd(x);
      FoldKeepsEnd(y);
      assert Redaction.EndsInSlash(x) == EndsInSeparator(x) && Redaction.EndsInSlash(y) == EndsInSeparator(y);
    } else {
      FoldLetters(x, y);
      FoldAlikeIff(x[..|x| - 1], y[..|y| - 1]);
    }
  }

  /** Position by position the same letter up to case, or a separator in both. */
  predicate LetterByLetter(x: Text, y: Text)
  {
    |x| == |y| && forall i :: 0 <= i < |x| ==> SameLetter(x[i], y[i]) || (Separator(x[i]) && Separator(y[i]))
  }

  lemma {:induction false} LetterByLetterIsAlike(x: Text, y: Text)
    requires LetterByLetter(x, y)
    ensures SpelledAlike(x, y)
    decreases |x|
  {
    if x != [] {
      var n := |x| - 1;
      assert SameLetter(x[n], y[n]) || (Separator(x[n]) && Separator(y[n]));
      if EndsInSeparator(x) {
        SameLength(x, y);
        LetterByLetterIsAlike(WithoutEnd(x), WithoutEnd(y));
      } else {
        LetterByLetterIsAlike(x[..n], y[..n]);
      }
    }
  }

  lemma SameLength(x: Text, y: Text)
    requires LetterByLetter(x, y)
    ensures |WithoutEnd(x)| == |WithoutEnd(y)|
  {
    EndsInLetter(x);
    EndsInLetter(y);
    assert forall i :: 0 <= i < |x| ==> (Separator(x[i]) <==> Separator(y[i]));
  }

  lemma EndsInLetter(x: Text)
    ensures WithoutEnd(x) != [] ==> !Separator(x[|WithoutEnd(x)| - 1])
  {
  }

  // ----- folded texts -----

  /** No capital letter, no backslash, no two slashes in a row. */
  predicate Plain(t: Text)
  {
    && (forall i :: 0 <= i < |t| ==> !(65 <= t[i] <= 90) && t[i] != 92)
    && forall i :: 0 <= i < |t| - 1 ==> t[i] != 47 || t[i + 1] != 47
  }

  /** These are the texts that folding leaves as they are. */
  lemma {:induction false} FoldedIffPlain(t: Text)
    ensures Fold(t) == t <==> Plain(t)
  {
    if t != [] {
      var n := |t| - 1;
      FoldSnoc(t);
      FoldedIffPlain(t[..n]);
      FoldNoLonger(t[..n]);
      hide Fold;
      assert t == t[..n] + [t[n]];
      if Fold(t) == t {
        assert Fold(t[..n]) == Fold(t)[..n];
      }
    }
  }

  lemma {:induction false} FoldNoLonger(t: Text)
    ensures |Fold(t)| <= |t|
  {
    if t != [] {
      FoldNoLonger(t[..|t| - 1]);
      FoldSnoc(t);
    }
  }

  // ----- what is hidden -----

  /** A value that is looked for: a string, not empty, not the mark itself. */
  predicate Sought(value: Value) { value.Str? && value.text != [] && !Spells(value.text, "[redacted]") }

  /** The needles are the forms of the values that are looked for, and nothing else. */
  lemma {:induction false} NeedlesOf(values: seq<Value>, f: Text)
    ensures f in Needles(values) <==> exists v :: v in values && Sought(v) && f in Forms(v.text)
  {
    hide Forms;
    if values != [] {
      var last := values[|values| - 1];
      NeedlesOf(values[..|values| - 1], f);
      assert values == values[..|values| - 1] + [last];
      if f in Needles(values) && f !in Needles(values[..|values| - 1]) {
        assert last in values;
      }
    }
  }

  /** Between two separators nothing starts or ends. */
  predicate CutsNoRun(text: Text, i: nat)
  {
    i <= |text| && !(0 < i < |text| && Separator(text[i - 1]) && Separator(text[i]))
  }

  /** A position is replaced exactly if it lies in a stretch that is spelled like a form of a
      value looked for and that cuts no run of separators. */
  lemma HitIff(text: Text, values: seq<Value>, p: nat)
    ensures Hit(text, Needles(values), p) <==>
            exists i: nat, j: nat, v, f ::
              && i <= p < j <= |text| && CutsNoRun(text, i) && CutsNoRun(text, j)
              && v in values && Sought(v) && f in Forms(v.text) && SpelledAlike(text[i..j], f)
  {
    hide Forms, Fold, SpelledAlike;
    if Hit(text, Needles(values), p) {
      var i: nat, j: nat :| i <= p < j <= |text| && IsWindow(text, Needles(values), Span(i, j));
      var f := Fold(text[i..j]);
      NeedlesOf(values, f);
      var v :| v in values && Sought(v) && f in Forms(v.text);
      FoldTwice(text[i..j]);
      FoldAlikeIff(text[i..j], f);
      assert CutsNoRun(text, i) && CutsNoRun(text, j);
    }
    if i: nat, j: nat, v, f :|
      && i <= p < j <= |text| && CutsNoRun(text, i) && CutsNoRun(text, j)
      && v in values && Sought(v) && f in Forms(v.text) && SpelledAlike(text[i..j], f)
    {
      FoldAlikeIff(text[i..j], f);
      FormsAreFolded(v.text, f);
      NeedlesOf(values, f);
      assert IsWindow(text, Needles(values), Span(i, j));
    }
  }

  // ----- the forms of a value -----

  function Join(tokens: seq<Text>): Text
  {
    if tokens == [] then [] else tokens[0] + Join(tokens[1..])
  }

  /** A dot, a hyphen, an underscore or ".git". */
  predicate Token(t: Text) { t == [0x2e] || t == [0x2d] || t == [0x5f] || t == [0x2e, 0x67, 0x69, 0x74] }

  predicate Tokens(tokens: seq<Text>) { forall k :: 0 <= k < |tokens| ==> Token(tokens[k]) }

  /** Tails are exactly what such tokens make up. */
  lemma {:induction false} IsTailIff(text: Text)
    ensures IsTail(text) <==> exists tokens :: Tokens(tokens) && Join(tokens) == text
  {
    if IsTail(text) {
      var tokens := TokensOf(text);
    }
    if tokens :| Tokens(tokens) && Join(tokens) == text {
      JoinIsTail(tokens);
    }
  }

  lemma {:induction false} TokensOf(text: Text) returns (tokens: seq<Text>)
    requires IsTail(text)
    ensures Tokens(tokens) && Join(tokens) == text
  {
    if text == [] {
      tokens := [];
    } else {
      var n := if text[0] in [46, 45, 95] && IsTail(text[1..]) then 1 else 4;
      var rest := TokensOf(text[n..]);
      tokens := [text[..n]] + rest;
      assert tokens[1..] == rest && text == text[..n] + text[n..];
    }
  }

  lemma {:induction false} JoinIsTail(tokens: seq<Text>)
    requires Tokens(tokens)
    ensures IsTail(Join(tokens))
  {
    if tokens != [] {
      var rest := Join(tokens[1..]);
      JoinIsTail(tokens[1..]);
      assert (tokens[0] + rest)[|tokens[0]|..] == rest;
      assert Token(tokens[0]);
    }
  }

  /** The folded value is leading slashes, a core with a slash in it, a tail, and dots at the end. */
  predicate Trims(folded: Text, lead: Text, core: Text, tail: Text, dots: Text)
  {
    && folded == lead + (core + tail + dots) && Only(lead, 47) && Only(dots, 46)
    && 47 in core && core[0] != 47
    && IsTail(tail) && (tail == [] || tail[|tail| - 1] != 46)
    && forall i :: 0 <= i < |core| ==> !IsTail(core[i..])
  }

  lemma {:induction false} SlashesBefore(text: Text) returns (lead: Text)
    ensures text == lead + DropSlashes(text) && Only(lead, 47)
    ensures DropSlashes(text) != [] ==> DropSlashes(text)[0] != 47
  {
    lead := [];
    if text != [] && text[0] == 47 {
      var rest := SlashesBefore(text[1..]);
      lead := [text[0]] + rest;
    }
  }

  lemma {:induction false} DotsBehind(text: Text) returns (dots: Text)
    ensures text == DropDots(text) + dots && Only(dots, 46)
    ensures DropDots(text) != [] ==> DropDots(text)[|DropDots(text)| - 1] != 46
  {
    dots := [];
    if text != [] && text[|text| - 1] == 46 {
      var rest := DotsBehind(text[..|text| - 1]);
      dots := rest + [text[|text| - 1]];
    }
  }

  lemma {:induction false} NoSlashInTail(tail: Text)
    requires IsTail(tail)
    ensures 47 !in tail
  {
    if tail != [] {
      if tail[0] in [46, 45, 95] && IsTail(tail[1..]) {
        NoSlashInTail(tail[1..]);
        assert tail == [tail[0]] + tail[1..];
      } else {
        NoSlashInTail(tail[4..]);
        assert tail == DOT_GIT + tail[4..];
      }
    }
  }

  lemma NoTailBefore(core: Text, tail: Text)
    requires IsTail(tail) && forall i :: 0 <= i < |core| ==> !IsTail((core + tail)[i..])
    ensures forall i :: 0 <= i < |core| ==> !IsTail(core[i..])
  {
    hide IsTail;
    forall i | 0 <= i < |core|
      ensures !IsTail(core[i..])
    {
      assert core[i..] + tail == (core + tail)[i..];
      if IsTail(core[i..]) {
        TailsJoin(core[i..], tail);
      }
    }
  }

  lemma FormCases(value: Text, f: Text)
    requires f in Forms(value) && f != Fold(value)
    ensures var short := DropDots(DropSlashes(Fold(value)));
            && 47 in f
            && (f == short || (f == DropTail(short) && f[|f| - 1] != 47))
  {
    hide DropTail, DropDots, DropSlashes, Fold;
  }

  lemma FirstIsKept(short: Text, text: Text, dots: Text)
    requires text == short + dots && short != []
    ensures text[0] == short[0]
  {
  }

  lemma Trimming(value: Text, f: Text) returns (lead: Text, core: Text, tail: Text, dots: Text)
    requires f in Forms(value) && f != Fold(value)
    ensures Trims(Fold(value), lead, core, tail, dots)
    ensures f == core + tail || (f == core && core[|core| - 1] != 47)
  {
    hide Forms, DropDots, DropSlashes, DropTail, IsTail, Fold, Only;
    var short := DropDots(DropSlashes(Fold(value)));
    FormCases(value, f);
    lead := SlashesBefore(Fold(value));
    dots := DotsBehind(DropSlashes(Fold(value)));
    DropTailIsLongest(short);
    core := DropTail(short);
    tail := short[|core|..];
    assert short == core + tail;
    NoSlashInTail(tail);
    NoTailBefore(core, tail);
    FirstIsKept(core, short, tail);
    FirstIsKept(short, DropSlashes(Fold(value)), dots);
  }

  lemma TailStep(a: Text, b: Text, n: nat)
    requires (n == 1 && a != [] && a[0] in [46, 45, 95]) || (n == 4 && |a| >= 4 && a[..4] == DOT_GIT)
    requires IsTail(a[n..] + b)
    ensures IsTail(a + b)
  {
    assert (a + b)[n..] == a[n..] + b && (a + b)[0] == a[0];
    assert n == 4 ==> (a + b)[..4] == a[..4];
  }

  /** One tail behind another is a tail. */
  lemma {:induction false} TailsJoin(a: Text, b: Text)
    requires IsTail(a) && IsTail(b)
    ensures IsTail(a + b)
  {
    if a == [] {
      assert a + b == b;
    } else {
      var n := if a[0] in [46, 45, 95] && IsTail(a[1..]) then 1 else 4;
      assert n == 4 ==> |a| >= 4 && a[..4] == DOT_GIT;
      TailsJoin(a[n..], b);
      TailStep(a, b, n);
    }
  }

  /** A value is looked for as it is and, as long as a path is left, without its leading slashes
      and trailing dots, and without the longest tail before them; in no other form. */
  lemma FormsIff(value: Text, f: Text)
    ensures f in Forms(value) <==>
            || f == Fold(value)
            || exists lead, core, tail, dots ::
              Trims(Fold(value), lead, core, tail, dots)
              && (f == core + tail || (f == core && core[|core| - 1] != 47))
  {
    if f in Forms(value) && f != Fold(value) {
      var lead, core, tail, dots := Trimming(value, f);
    }
    if lead, core, tail, dots :|
      Trims(Fold(value), lead, core, tail, dots)
      && (f == core + tail || (f == core && core[|core| - 1] != 47))
    {
      EndsAreOptional(value, lead, core, tail, dots);
    }
  }

  lemma PlainPart(a: Text, b: Text, c: Text)
    requires Plain(a + b + c)
    ensures Plain(b)
  {
    var all := a + b + c;
    assert forall i :: 0 <= i < |b| ==> all[|a| + i] == b[i];
    forall i | 0 <= i < |b| - 1
      ensures b[i] != 47 || b[i + 1] != 47
    {
      assert all[|a| + i] != 47 || all[|a| + i + 1] != 47;
    }
  }

  lemma Regroup(a: Text, b: Text, c: Text, d: Text)
    ensures a + (b + c + d) == a + (b + c) + d
    ensures a + (b + c + d) == a + b + (c + d)
  {
  }

  /** A form is a part of the folded value. */
  lemma FormIsPart(value: Text, f: Text) returns (before: Text, behind: Text)
    requires f in Forms(value)
    ensures Fold(value) == before + f + behind
  {
    hide Fold, Only, IsTail, Forms;
    before, behind := [], [];
    if f != Fold(value) {
      var lead, core, tail, dots := Trimming(value, f);
      before, behind := lead, if f == core + tail then dots else tail + dots;
      Regroup(lead, core, tail, dots);
    }
  }

  /** Every form is folded already. */
  lemma FormsAreFolded(value: Text, f: Text)
    requires f in Forms(value)
    ensures Fold(f) == f
  {
    var before, behind := FormIsPart(value, f);
    hide Forms, Plain, Fold;
    FoldTwice(value);
    FoldedIffPlain(Fold(value));
    PlainPart(before, f, behind);
    FoldedIffPlain(f);
  }

  // ----- what is printed -----

  lemma MarkIsSpelled()
    ensures Spells(REDACTED, "[redacted]") && forall c :: c in REDACTED ==> Printable(c)
  {
  }

  lemma HiddenIsMark(text: Text, values: seq<Value>)
    requires Blank(text, Hits(text, Needles(values))) == REDACTED
    ensures Spells(Redacted(text, values), "[redacted]")
  {
    hide Blank, Hits, Needles, Spells, Escape, Printable;
    MarkIsSpelled();
    PrintableStays(REDACTED);
  }

  lemma NothingAlike(value: Text)
    requires SpelledAlike([], value)
    ensures value == []
  {
  }

  /** A value, in any letter case and with any separators, leaves nothing but the mark. */
  lemma AnySpellingIsHidden(text: Text, value: Text, values: seq<Value>)
    requires Str(value) in values && Sought(Str(value)) && SpelledAlike(text, value)
    ensures Spells(Redacted(text, values), "[redacted]")
  {
    hide Fold, SpelledAlike, Blank, Hits, Needles, Forms, Redacted;
    FoldAlikeIff(text, value);
    FormsIff(value, Fold(value));
    NeedlesOf(values, Fold(value));
    if text == [] {
      NothingAlike(value);
    }
    WholeTextIsHidden(text, Needles(values));
    HiddenIsMark(text, values);
  }

  /** And so it is inside a longer text, unless a run of separators goes on across its ends. */
  lemma SpellingInsideIsHidden(before: Text, text: Text, behind: Text, value: Text, values: seq<Value>)
    requires Str(value) in values && Sought(Str(value)) && SpelledAlike(text, value)
    requires var all := before + text + behind; CutsNoRun(all, |before|) && CutsNoRun(all, |before + text|)
    ensures forall p :: |before| <= p < |before + text| ==> Hit(before + text + behind, Needles(values), p)
  {
    var all := before + text + behind;
    assert all[|before|..|before + text|] == text;
    FormsIff(value, Fold(value));
    FoldTwice(value);
    FoldAlikeIff(text, value);
    FoldAlikeIff(text, Fold(value));
    hide Fold, Forms, Needles, Hit, SpelledAlike;
    forall p: nat | |before| <= p < |before + text|
      ensures Hit(all, Needles(values), p)
    {
      HitIff(all, values, p);
    }
  }
}
