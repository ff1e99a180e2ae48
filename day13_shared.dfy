/** Day 13, shared code: a pattern of ash `.` and rocks `#` is searched for
    a line of reflection between two rows. A candidate line after row
    `x - 1` is accepted when the rows mirrored across it differ in exactly
    the requested number of cells (the "smudges"); columns are searched by
    transposing the pattern first. */
module Day13Shared {
  import opened Wrappers

  // ---------------------------------------------------------------------
  // Transposing

  /** Column `c` of a pattern; a line too short to reach it contributes the
      NUL character the transposed buffer starts out with. */
  function Column(block: seq<string>, c: int): (col: string)
    ensures |col| == |block|
    ensures forall i | 0 <= i < |block| && 0 <= c < |block[i]| :: col[i] == block[i][c]
  {
    seq(|block|, i requires 0 <= i < |block| => if 0 <= c < |block[i]| then block[i][c] else '\0')
  }

  /** No line is longer than the first one, so every character has a
      place in the transposed buffer. */
  predicate FitsFirst(block: seq<string>) {
    |block| > 0 && forall i | 0 <= i < |block| :: |block[i]| <= |block[0]|
  }

  predicate Rectangular(block: seq<string>) {
    forall i, j | 0 <= i < |block| && 0 <= j < |block| :: |block[i]| == |block[j]|
  }

  /** The transposed pattern: one line per column of the first line. */
  function Transposed(block: seq<string>): (t: seq<string>)
    requires |block| > 0
    ensures |t| == |block[0]|
    ensures forall c | 0 <= c < |t| :: |t[c]| == |block|
  {
    seq(|block[0]|, c requires 0 <= c < |block[0]| => Column(block, c))
  }

  /** The transposed buffer once lines `..rows` are written in full and
      line `rows` up to (not including) character `chars`. */
  ghost predicate WrittenUpTo(block: seq<string>, result: seq<string>, width: nat, rows: nat, chars: nat)
  {
    && |result| == width
    && (forall c | 0 <= c < width :: |result[c]| == |block|)
    && forall c, i | 0 <= c < width && 0 <= i < |block| ::
      result[c][i] ==
        if c < |block[i]| && (i < rows || (i == rows && c < chars)) then block[i][c] else '\0'
  }

  /** `rotate`: a buffer of NULs with one line per character of the first
      line, filled cell by cell; a line longer than the first one writes
      past its buffer line and panics. */
  method Rotate(block: seq<string>) returns (r: Result<seq<string>>)
    requires |block| > 0
    ensures r.Success? <==> FitsFirst(block)
    ensures r.Success? ==> r.value == Transposed(block)
  {
    var width := |block[0]|;
    var result: seq<string> := seq(width, _ => seq(|block|, _ => '\0'));
    for lineIdx := 0 to |block|
      invariant forall i | 0 <= i < lineIdx :: |block[i]| <= width
      invariant WrittenUpTo(block, result, width, lineIdx, 0)
    {
      var line := block[lineIdx];
      for charIdx := 0 to |line|
        invariant charIdx <= width
        invariant WrittenUpTo(block, result, width, lineIdx, charIdx)
      {
        if charIdx >= width {
          return Failure("index out of bounds");
        }
        CellWritten(block, result, width, lineIdx, charIdx);
        result := result[charIdx := result[charIdx][lineIdx := line[charIdx]]];
      }
      LineWritten(block, result, width, lineIdx);
    }
    r := Success(result);
    forall c | 0 <= c < width ensures result[c] == Column(block, c) {
      assert WrittenUpTo(block, result, width, |block|, 0);
    }
  }

  /** Writing the next cell of line `rows` extends the written part by it. */
  lemma CellWritten(block: seq<string>, result: seq<string>, width: nat, rows: nat, chars: nat)
    requires rows < |block| && chars < |block[rows]| && chars < width
    requires WrittenUpTo(block, result, width, rows, chars)
    ensures WrittenUpTo(block, result[chars := result[chars][rows := block[rows][chars]]], width, rows, chars + 1)
  {
  }

  /** A line written in full is a line the buffer holds. */
  lemma LineWritten(block: seq<string>, result: seq<string>, width: nat, rows: nat)
    requires rows < |block| && |block[rows]| <= width
    requires WrittenUpTo(block, result, width, rows, |block[rows]|)
    ensures WrittenUpTo(block, result, width, rows + 1, 0)
  {
  }

  /** A rectangular pattern is transposed cell by cell, and transposing it
      twice gives it back. */
  lemma {:induction false} TransposeTwice(block: seq<string>)
    requires |block| > 0 && |block[0]| > 0 && Rectangular(block)
    ensures forall c, i | 0 <= c < |block[0]| && 0 <= i < |block| :: Transposed(block)[c][i] == block[i][c]
    ensures Transposed(Transposed(block)) == block
  {
    var t := Transposed(block);
    forall c, i | 0 <= c < |block[0]| && 0 <= i < |block| ensures t[c][i] == block[i][c] {
      assert |block[i]| == |block[0]|;
    }
    forall i | 0 <= i < |block| ensures Transposed(t)[i] == block[i] {
      assert |block[i]| == |block[0]|;
    }
  }

  // ---------------------------------------------------------------------
  // Counting mismatches

  function Reverse<T>(s: seq<T>): (r: seq<T>)
    ensures |r| == |s| && forall i | 0 <= i < |s| :: r[i] == s[|s| - 1 - i]
  {
    seq(|s|, i requires 0 <= i < |s| => s[|s| - 1 - i])
  }

  function Min(a: nat, b: nat): nat {
    if a < b then a else b
  }

  /** Mismatching characters of two rows, zipped, so the longer row's tail
      is ignored. */
  function Mismatches(s: string, t: string): (n: nat)
    ensures n <= Min(|s|, |t|)
  {
    if s == [] || t == [] then 0
    else (if s[0] == t[0] then 0 else 1) + Mismatches(s[1..], t[1..])
  }

  /** Mismatches of two lists of rows, zipped row by row. */
  function RowMismatches(below: seq<string>, above: seq<string>): nat {
    if below == [] || above == [] then 0
    else Mismatches(below[0], above[0]) + RowMismatches(below[1..], above[1..])
  }

  /** The smudges a reflection line after row `x - 1` would need: the rows
      below it against the rows above it read upwards. */
  function Smudges(block: seq<string>, x: nat): nat
    requires x <= |block|
  {
    RowMismatches(block[x..], Reverse(block[..x]))
  }

  /** The two rows agree wherever both have a character. */
  predicate Agree(s: string, t: string) {
    forall i | 0 <= i < |s| && i < |t| :: s[i] == t[i]
  }

  /** Rows `x - 1 - k` and `x + k` agree on every pair that exists on both
      sides of the line. */
  predicate MirroredAt(block: seq<string>, x: nat)
    requires x <= |block|
  {
    forall i, j | 0 <= j < x <= i < |block| && i - x == x - 1 - j :: Agree(block[i], block[j])
  }

  lemma {:induction false} MismatchesZero(s: string, t: string)
    ensures Mismatches(s, t) == 0 <==> Agree(s, t)
    decreases |s|
  {
    if s != [] && t != [] {
      MismatchesZero(s[1..], t[1..]);
      if Agree(s[1..], t[1..]) && s[0] == t[0] {
        forall i | 0 <= i < |s| && i < |t| ensures s[i] == t[i] {
          if i > 0 {
            assert s[1..][i - 1] == s[i];
          }
        }
      }
    }
  }

  lemma {:induction false} MismatchesSymmetric(s: string, t: string)
    ensures Mismatches(s, t) == Mismatches(t, s)
    decreases |s|
  {
    if s != [] && t != [] {
      MismatchesSymmetric(s[1..], t[1..]);
    }
  }

  lemma {:induction false} RowMismatchesZero(below: seq<string>, above: seq<string>)
    ensures RowMismatches(below, above) == 0 <==>
      forall k | 0 <= k < |below| && k < |above| :: Agree(below[k], above[k])
    decreases |below|
  {
    if below != [] && above != [] {
      MismatchesZero(below[0], above[0]);
      RowMismatchesZero(below[1..], above[1..]);
      if RowMismatches(below, above) == 0 {
        forall k | 0 <= k < |below| && k < |above| ensures Agree(below[k], above[k]) {
          if k > 0 {
            assert below[1..][k - 1] == below[k] && above[1..][k - 1] == above[k];
          }
        }
      } else if Mismatches(below[0], above[0]) != 0 {
        assert !Agree(below[0], above[0]);
      } else {
        var k :| 0 <= k < |below| - 1 && k < |above| - 1 && !Agree(below[1..][k], above[1..][k]);
        assert !Agree(below[k + 1], above[k + 1]);
      }
    }
  }

  /** With no smudge allowed, a line is accepted exactly when the pattern
      is mirrored across it. */
  lemma {:induction false} NoSmudgeMeansMirror(block: seq<string>, x: nat)
    requires x <= |block|
    ensures Smudges(block, x) == 0 <==> MirroredAt(block, x)
  {
    var below, above := block[x..], Reverse(block[..x]);
    RowMismatchesZero(below, above);
    if Smudges(block, x) == 0 {
      forall i, j | 0 <= j < x <= i < |block| && i - x == x - 1 - j ensures Agree(block[i], block[j]) {
        assert below[i - x] == block[i] && above[i - x] == block[j];
      }
    } else {
      var k :| 0 <= k < |below| && k < |above| && !Agree(below[k], above[k]);
      assert below[k] == block[x + k] && above[k] == block[x - 1 - k];
    }
  }

  /** Smudges only count rows present on both sides: the line right after
      the first row compares exactly one pair of rows. */
  lemma {:induction false} FirstLineComparesOnePair(block: seq<string>)
    requires |block| >= 2
    ensures Smudges(block, 1) == Mismatches(block[1], block[0])
  {
    var below, above := block[1..], Reverse(block[..1]);
    assert above == [block[0]];
    assert below[0] == block[1];
    assert RowMismatches(below[1..], above[1..]) == 0;
  }

  // ---------------------------------------------------------------------
  // Searching the line of reflection

  /** The first line at or after `x` that needs exactly `smudges`
      smudges, or 0 when there is none. */
  function FirstLineFrom(block: seq<string>, smudges: nat, x: nat): nat
    requires 1 <= x
    decreases |block| - x
  {
    if x >= |block| then 0
    else if Smudges(block, x) == smudges then x
    else FirstLineFrom(block, smudges, x + 1)
  }

  /** The line `find_symmetry` reports: the number of rows above it. */
  function Reflection(block: seq<string>, smudges: nat): nat {
    FirstLineFrom(block, smudges, 1)
  }

  lemma {:induction false} FirstLineFromIsFirst(block: seq<string>, smudges: nat, x: nat)
    requires 1 <= x
    ensures var r := FirstLineFrom(block, smudges, x);
      && (r == 0 || (x <= r < |block| && Smudges(block, r) == smudges))
      && forall y | x <= y < |block| && (r == 0 || y < r) :: Smudges(block, y) != smudges
    decreases |block| - x
  {
    if x < |block| && Smudges(block, x) != smudges {
      FirstLineFromIsFirst(block, smudges, x + 1);
    }
  }

  /** `find_symmetry` returns the smallest line with exactly the requested
      smudges, or 0 when no line qualifies; either way fewer than the rows
      of the pattern. */
  lemma {:induction false} ReflectionIsFirst(block: seq<string>, smudges: nat)
    ensures var r := Reflection(block, smudges);
      && (r == 0 || 1 <= r < |block|)
      && (r != 0 ==> Smudges(block, r) == smudges)
      && forall y | 1 <= y < |block| && (r == 0 || y < r) :: Smudges(block, y) != smudges
  {
    FirstLineFromIsFirst(block, smudges, 1);
  }

  /** `find_symmetry`: try every line from the top and return the first
      whose mirrored rows differ in exactly `smudges` cells. */
  method FindSymmetry(block: seq<string>, smudges: nat) returns (x: nat)
    ensures x == Reflection(block, smudges)
  {
    x := 1;
    while x < |block|
      invariant 1 <= x
      invariant FirstLineFrom(block, smudges, x) == Reflection(block, smudges)
      decreases |block| - x
    {
      if Smudges(block, x) == smudges {
        return;
      }
      x := x + 1;
    }
    x := 0;
  }

  // ---------------------------------------------------------------------
  // Summarising the notes

  /** What `process` adds up: 100 per row above each pattern's horizontal
      line plus one per column left of its vertical line. */
  function Summary(blocks: seq<seq<string>>, smudges: nat): nat
    requires forall i | 0 <= i < |blocks| :: FitsFirst(blocks[i])
  {
    if blocks == [] then 0
    else
      var last := blocks[|blocks| - 1];
      assert FitsFirst(last);
      Summary(blocks[..|blocks| - 1], smudges) + 100 * Reflection(last, smudges) + Reflection(Transposed(last), smudges)
  }

  lemma {:induction false} SummarySnoc(blocks: seq<seq<string>>, i: nat, smudges: nat)
    requires i < |blocks| && forall k | 0 <= k <= i :: FitsFirst(blocks[k])
    ensures Summary(blocks[..i + 1], smudges) == Summary(blocks[..i], smudges)
      + 100 * Reflection(blocks[i], smudges) + Reflection(Transposed(blocks[i]), smudges)
  {
    assert blocks[..i + 1][..i] == blocks[..i];
  }

  /** The loop both parts' `process` run, with the number of smudges they
      ask for; a pattern with a line longer than its first one makes
      `rotate` panic. */
  method Summarize(blocks: seq<seq<string>>, smudges: nat) returns (r: Result<nat>)
    requires forall i | 0 <= i < |blocks| :: |blocks[i]| > 0
    ensures r.Success? <==> forall i | 0 <= i < |blocks| :: FitsFirst(blocks[i])
    ensures r.Success? ==> r.value == Summary(blocks, smudges)
  {
    var result := 0;
    for i := 0 to |blocks|
      invariant forall k | 0 <= k < i :: FitsFirst(blocks[k])
      invariant result == Summary(blocks[..i], smudges)
    {
      var block := blocks[i];
      var rows := FindSymmetry(block, smudges);
      var newBlock := Rotate(block);
      if newBlock.Failure? {
        return Failure(newBlock.error);
      }
      var columns := FindSymmetry(newBlock.value, smudges);
      SummarySnoc(blocks, i, smudges);
      result := result + rows * 100 + columns;
    }
    assert blocks[..|blocks|] == blocks;
    r := Success(result);
  }
}
