/** The three ring buffers that keep the last lines of a log. Each is fed by a line scanner,
    modelled by the lines it delivers and by whether it stops with an error. */
module RingTails {
  import opened Basics
  import opened Lines

  type Line = Bytes

  /** What every tail promises: the last `n` lines, or all of them if there are fewer. */
  function LastN(lines: seq<Line>, n: nat): (r: seq<Line>)
    ensures |r| == if |lines| <= n then |lines| else n
  {
    if |lines| <= n then lines else lines[|lines| - n..]
  }

  // ----- the ring -----

  lemma AtLeastOnce(d: int, n: nat)
    requires d >= 1
    ensures d * n >= n
  {
  }

  lemma ModIs(a: nat, n: nat, q: nat, r: nat)
    requires n > 0 && r < n && a == q * n + r
    ensures a % n == r
  {
    var d := a / n - q;
    assert d * n == r - a % n;
    if d > 0 {
      AtLeastOnce(d, n);
    } else if d < 0 {
      AtLeastOnce(-d, n);
    }
  }

  /** The slot of line number `c` in a ring of `n` slots. */
  function Slot(c: nat, n: nat): (s: nat)
    requires n > 0
    ensures s < n
  {
    c % n
  }

  /** Fewer than `n` steps never lead back to the same slot. */
  lemma SlotsDiffer(k: nat, c: nat, n: nat)
    requires n > 0 && k < c < k + n
    ensures Slot(k, n) != Slot(c, n)
  {
    var q, r := k / n, k % n;
    if r + (c - k) < n {
      ModIs(c, n, q, r + (c - k));
    } else {
      assert c == (q + 1) * n + (r + (c - k) - n);
      ModIs(c, n, q + 1, r + (c - k) - n);
    }
  }

  /** Reading from slot `c % n` on yields the oldest line first. */
  lemma OldestFirst(c: nat, n: nat, j: nat)
    requires n > 0 && c >= n && j < n
    ensures Slot(Slot(c, n) + j, n) == Slot(c - n + j, n)
  {
    var q, r := c / n, c % n;
    if r + j < n {
      ModIs(r + j, n, 0, r + j);
      assert q > 0;
      assert c - n + j == (q - 1) * n + (r + j);
      ModIs(c - n + j, n, q - 1, r + j);
    } else {
      ModIs(r + j, n, 1, r + j - n);
      assert c - n + j == q * n + (r + j - n);
      ModIs(c - n + j, n, q, r + j - n);
    }
  }

  /** The ring holds the latest lines, each in the slot of its number. */
  ghost predicate Holds(ring: seq<Line>, lines: seq<Line>)
  {
    |ring| > 0 && forall k: nat {:trigger lines[k]} :: k < |lines| <= k + |ring| ==> ring[Slot(k, |ring|)] == lines[k]
  }

  lemma PutHolds(ring: seq<Line>, lines: seq<Line>, line: Line)
    requires Holds(ring, lines)
    ensures Holds(ring[Slot(|lines|, |ring|) := line], lines + [line])
  {
    hide Slot;
    var n, c := |ring|, |lines|;
    forall k: nat | k < c + 1 <= k + n
      ensures ring[Slot(c, n) := line][Slot(k, n)] == (lines + [line])[k]
    {
      if k < c {
        SlotsDiffer(k, c, n);
      }
    }
  }

  lemma LastNAt(lines: seq<Line>, n: nat, j: nat)
    requires j < |LastN(lines, n)|
    ensures LastN(lines, n)[j] == lines[|lines| - |LastN(lines, n)| + j]
  {
  }

  lemma HoldsAt(ring: seq<Line>, lines: seq<Line>, k: nat)
    requires Holds(ring, lines) && k < |lines| <= k + |ring|
    ensures ring[Slot(k, |ring|)] == lines[k]
  {
  }

  /** Where the `j`-th of the last lines is found. */
  lemma HoldsLast(ring: seq<Line>, lines: seq<Line>, j: nat)
    requires Holds(ring, lines) && |ring| > 0 && j < |LastN(lines, |ring|)|
    ensures ring[Slot((if |lines| > |ring| then Slot(|lines|, |ring|) else 0) + j, |ring|)] == LastN(lines, |ring|)[j]
  {
    hide Slot, Holds, LastN;
    var n, c := |ring|, |lines|;
    LastNAt(lines, n, j);
    if c > n {
      OldestFirst(c, n, j);
      HoldsAt(ring, lines, c - n + j);
    } else {
      HoldsAt(ring, lines, j);
    }
  }

  /** A ring that was never overrun still has the lines in front, in order. */
  lemma HoldsAll(ring: seq<Line>, lines: seq<Line>)
    requires Holds(ring, lines) && |lines| <= |ring|
    ensures ring[..|lines|] == lines
  {
    forall k: nat | k < |lines|
      ensures ring[k] == lines[k]
    {
      ModIs(k, |ring|, 0, k);
      assert ring[Slot(k, |ring|)] == lines[k];
    }
  }

  lemma PutNext(ring: seq<Line>, lines: seq<Line>, count: nat)
    requires count < |lines| && Holds(ring, lines[..count])
    ensures Holds(ring[Slot(count, |ring|) := lines[count]], lines[..count + 1])
  {
    hide Slot;
    PutHolds(ring, lines[..count], lines[count]);
    assert lines[..count + 1] == lines[..count] + [lines[count]];
  }

  // ----- collector.TailLinesReader -----

  method TailLinesReader(lines: seq<Line>, fails: bool, n: int) returns (r: Option<seq<Line>>)
    ensures r == if n <= 0 then Some([]) else if fails then None else Some(LastN(lines, n))
  {
    if n <= 0 {
      return Some([]);
    }
    hide Slot;
    var ring := new Line[n];
    var i, count := 0, 0;
    while count < |lines|
      invariant 0 <= i == count <= |lines|
      invariant Holds(ring[..], lines[..count])
    {
      PutNext(ring[..], lines, count);
      ring[Slot(i, n)] := lines[count];
      i := i + 1;
      count := count + 1;
    }
    ghost var full := ring[..];
    assert Holds(full, lines) by {
      assert lines[..count] == lines;
    }
    hide Holds, LastN;
    if fails {
      return None;
    }
    if count <= n {
      HoldsAll(full, lines);
      assert full[..count] == ring[..count];
      return Some(ring[..count]);
    }
    var result := new Line[n];
    var start := Slot(i, n);
    var j := 0;
    while j < n
      invariant 0 <= j <= n
      invariant ring[..] == full
      invariant forall k :: 0 <= k < j ==> result[k] == LastN(lines, n)[k]
    {
      HoldsLast(full, lines, j);
      result[j] := ring[Slot(start + j, n)];
      j := j + 1;
    }
    assert result[..] == LastN(lines, n);
    return Some(result[..]);
  }

  // ----- rental.tailLines -----

  const APACHE_LOG_EVENT_TAIL_LINES: nat := 500

  method TailLines(lines: seq<Line>, fails: bool, n: int) returns (r: Option<seq<Line>>)
    ensures r == if fails then None else Some(LastN(lines, if n <= 0 then 500 else n))
  {
    var size := if n <= 0 then APACHE_LOG_EVENT_TAIL_LINES else n;
    hide Slot;
    var ring := new Line[size];
    var count := 0;
    while count < |lines|
      invariant 0 <= count <= |lines|
      invariant Holds(ring[..], lines[..count])
    {
      PutNext(ring[..], lines, count);
      ring[Slot(count, size)] := lines[count];
      count := count + 1;
    }
    ghost var full := ring[..];
    assert Holds(full, lines) by {
      assert lines[..count] == lines;
    }
    hide Holds, LastN;
    if fails {
      return None;
    }
    var total := if count > size then size else count;
    var out: seq<Line> := [];
    var start := if count > size then Slot(count, size) else 0;
    var i := 0;
    while i < total
      invariant 0 <= i <= total
      invariant ring[..] == full
      invariant out == LastN(lines, size)[..i]
    {
      HoldsLast(full, lines, i);
      assert ring[Slot(start + i, size)] == full[Slot(start + i, size)];
      out := out + [ring[Slot(start + i, size)]];
      i := i + 1;
    }
    assert LastN(lines, size)[..total] == LastN(lines, size);
    return Some(out);
  }

  // ----- updates.tailFile -----

  /** strings.Join with a newline. */
  function Joined(lines: seq<Line>): Bytes
  {
    if lines == [] then [] else if |lines| == 1 then lines[0] else lines[0] + [NEWLINE] + Joined(lines[1..])
  }

  /** `lines` is None when the file cannot be opened. */
  method TailFile(lines: Option<seq<Line>>, fails: bool, n: int) returns (r: Bytes)
    ensures r == if lines.None? || n <= 0 || fails then [] else Joined(LastN(lines.value, n))
  {
    if lines.None? || n <= 0 {
      return [];
    }
    hide Slot, Joined;
    var all := lines.value;
    var ring := new Line[n];
    var count := 0;
    while count < |all|
      invariant 0 <= count <= |all|
      invariant Holds(ring[..], all[..count])
    {
      PutNext(ring[..], all, count);
      ring[Slot(count, n)] := all[count];
      count := count + 1;
    }
    ghost var full := ring[..];
    assert Holds(full, all) by {
      assert all[..count] == all;
    }
    hide Holds, LastN;
    if fails {
      return [];
    }
    var total := if count > n then n else count;
    var start := if count > n then Slot(count, n) else 0;
    var out: seq<Line> := [];
    var i := 0;
    while i < total
      invariant 0 <= i <= total
      invariant ring[..] == full
      invariant out == LastN(all, n)[..i]
    {
      HoldsLast(full, all, i);
      assert ring[Slot(start + i, n)] == full[Slot(start + i, n)];
      out := out + [ring[Slot(start + i, n)]];
      i := i + 1;
    }
    assert LastN(all, n)[..total] == LastN(all, n);
    return Joined(out);
  }

  /** Cutting the joined text at its newlines gives the lines back, so tailFile loses nothing
      that the other two tails return. */
  function Cut(text: Bytes): (r: seq<Line>)
    ensures |r| > 0
  {
    if text == [] then [[]]
    else
      var rest := Cut(text[1..]);
      if text[0] == NEWLINE then [[]] + rest else [[text[0]] + rest[0]] + rest[1..]
  }

  lemma {:induction false} CutFirst(line: Line, rest: Bytes)
    requires NEWLINE !in line
    ensures Cut(line + [NEWLINE] + rest) == [line] + Cut(rest)
    ensures Cut(line) == [line]
  {
    if line == [] {
      assert line + [NEWLINE] + rest == [NEWLINE] + rest;
      assert ([NEWLINE] + rest)[1..] == rest;
    } else {
      CutFirst(line[1..], rest);
      assert (line + [NEWLINE] + rest)[1..] == line[1..] + [NEWLINE] + rest;
      assert [line[0]] + line[1..] == line;
    }
  }

  lemma {:induction false} JoinedCutsBack(lines: seq<Line>)
    requires lines != [] && forall l :: l in lines ==> NEWLINE !in l
    ensures Cut(Joined(lines)) == lines
  {
    CutFirst(lines[0], []);
    if |lines| > 1 {
      JoinedCutsBack(lines[1..]);
      CutFirst(lines[0], Joined(lines[1..]));
    }
  }
}
