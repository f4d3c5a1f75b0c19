/** Files as byte sequences, cut into newline-terminated lines.

    Every log reader of the agent walks a file line by line from a byte offset.
    This module says what those lines are, independently of any reader: which
    lines lie ahead of an offset, and where the last of them ends. */
module Lines {
  import opened Basics

  newtype Byte = x: int | 0 <= x < 256
  type Bytes = seq<Byte>

  const NEWLINE: Byte := 10

  /** One past the first newline at or after `i`; the end of `s` if there is none. */
  function LineEnd(s: Bytes, i: nat): (e: nat)
    requires i < |s|
    ensures i < e <= |s|
    ensures forall j :: i <= j < e - 1 ==> s[j] != NEWLINE
    ensures e < |s| ==> s[e - 1] == NEWLINE
    decreases |s| - i
  {
    if s[i] == NEWLINE || i + 1 == |s| then i + 1 else LineEnd(s, i + 1)
  }

  /** There is a line to read at `i`. A file that will not grow any more (`final`)
      also counts its unterminated last piece as a line. */
  predicate HasLine(s: Bytes, i: nat, final: bool)
  {
    i < |s| && (final || s[LineEnd(s, i) - 1] == NEWLINE)
  }

  /** All lines ahead of offset `i`. */
  function LinesFrom(s: Bytes, i: nat, final: bool): seq<Bytes>
    decreases |s| - i
  {
    if HasLine(s, i, final) then
      [s[i..LineEnd(s, i)]] + LinesFrom(s, LineEnd(s, i), final)
    else
      []
  }

  /** Where a reader starting at `i` ends up when nothing stops it. */
  function StopAt(s: Bytes, i: nat, final: bool): (e: nat)
    requires i <= |s|
    ensures i <= e <= |s|
    ensures !HasLine(s, e, final)
    decreases |s| - i
  {
    if HasLine(s, i, final) then StopAt(s, LineEnd(s, i), final) else i
  }

  /** The lines between two offsets. */
  function LinesBetween(s: Bytes, i: nat, j: nat): seq<Bytes>
    requires i <= |s|
    decreases |s| - i
  {
    if i < j && i < |s| then
      [s[i..LineEnd(s, i)]] + LinesBetween(s, LineEnd(s, i), j)
    else
      []
  }

  /** One past the last newline of `s`, or 0. */
  function LastLineEnd(s: Bytes): (e: nat)
    ensures e <= |s|
    ensures e > 0 ==> s[e - 1] == NEWLINE
    ensures forall j :: e <= j < |s| ==> s[j] != NEWLINE
  {
    if s == [] then 0
    else if s[|s| - 1] == NEWLINE then |s|
    else LastLineEnd(s[..|s| - 1])
  }

  lemma {:induction false} LineEndAppend(s: Bytes, t: Bytes, i: nat)
    requires HasLine(s, i, false)
    ensures LineEnd(s + t, i) == LineEnd(s, i)
    ensures HasLine(s + t, i, false)
    decreases |s| - i
  {
    if s[i] != NEWLINE && i + 1 < |s| {
      LineEndAppend(s, t, i + 1);
    }
  }

  /** Bytes appended at the end add lines behind the ones already there. */
  lemma {:induction false} LinesAppend(s: Bytes, t: Bytes, i: nat)
    requires i <= |s|
    ensures LinesFrom(s + t, i, false) == LinesFrom(s, i, false) + LinesFrom(s + t, StopAt(s, i, false), false)
    ensures StopAt(s + t, i, false) == StopAt(s + t, StopAt(s, i, false), false)
    decreases |s| - i
  {
    if HasLine(s, i, false) {
      LineEndAppend(s, t, i);
      var e := LineEnd(s, i);
      assert (s + t)[i..e] == s[i..e];
      LinesAppend(s, t, e);
    }
  }

  /** Closing a file only turns its unterminated rest into one more line. */
  lemma {:induction false} LinesClose(s: Bytes, i: nat)
    requires i <= |s|
    ensures LinesFrom(s, i, true) == LinesFrom(s, i, false) + LinesFrom(s, StopAt(s, i, false), true)
    decreases |s| - i
  {
    if HasLine(s, i, false) {
      LinesClose(s, LineEnd(s, i));
    }
  }

  /** No complete line is left exactly when the offset is past the last newline. */
  lemma {:induction false} StopAtIsLastLineEnd(s: Bytes, i: nat)
    requires i <= |s|
    ensures StopAt(s, i, false) == if i <= LastLineEnd(s) then LastLineEnd(s) else i
    decreases |s| - i
  {
    if HasLine(s, i, false) {
      StopAtIsLastLineEnd(s, LineEnd(s, i));
    }
  }

  // ----- files of whole lines -----

  /** Empty, or ending in a newline. */
  predicate Whole(s: Bytes) { s == [] || s[|s| - 1] == NEWLINE }

  /** What stands behind the last newline. */
  function Rest(s: Bytes): Bytes { s[LastLineEnd(s)..] }

  lemma WholeHasNoRest(s: Bytes)
    ensures Whole(s) <==> Rest(s) == []
  {
  }

  /** A file of whole lines reads the same whether or not it is final. */
  lemma WholeLinesClose(s: Bytes)
    requires Whole(s)
    ensures LinesFrom(s, 0, true) == LinesFrom(s, 0, false)
  {
    LinesClose(s, 0);
    StopAtIsLastLineEnd(s, 0);
    ConcatEmpty(LinesFrom(s, 0, false));
  }

  /** A torn file, read as final, has its rest as one more line. */
  lemma TornLinesClose(s: Bytes)
    requires !Whole(s)
    ensures LinesFrom(s, 0, true) == LinesFrom(s, 0, false) + [Rest(s)]
  {
    var e := LastLineEnd(s);
    LinesClose(s, 0);
    StopAtIsLastLineEnd(s, 0);
    assert LineEnd(s, e) == |s| by {
      assert s[LineEnd(s, e) - 1] != NEWLINE;
    }
    assert s[e..|s|] == Rest(s);
    assert LinesFrom(s, |s|, true) == [];
  }

  lemma {:induction false} LineEndsAt(s: Bytes, i: nat, e: nat)
    requires i < e <= |s| && s[e - 1] == NEWLINE && forall j :: i <= j < e - 1 ==> s[j] != NEWLINE
    ensures LineEnd(s, i) == e
    decreases |s| - i
  {
    if i < e - 1 {
      LineEndsAt(s, i + 1, e);
    }
  }

  /** Appending one line continues the rest: it becomes a line of its own only if there is none. */
  lemma LineIsGlued(s: Bytes, text: Bytes)
    requires NEWLINE !in text
    ensures var all := s + (text + [NEWLINE]);
            Whole(all) && LinesFrom(all, 0, false) == LinesFrom(s, 0, false) + [Rest(s) + (text + [NEWLINE])]
  {
    var line := text + [NEWLINE];
    var all, e := s + line, LastLineEnd(s);
    assert forall j :: e <= j < |all| - 1 ==> all[j] != NEWLINE;
    LineEndsAt(all, e, |all|);
    assert LinesFrom(all, |all|, false) == [];
    assert LinesFrom(all, e, false) == [all[e..|all|]];
    hide LineEnd, HasLine, LinesFrom, LastLineEnd;
    assert all[e..|all|] == Rest(s) + line;
    LinesAppend(s, line, 0);
    StopAtIsLastLineEnd(s, 0);
  }
}
